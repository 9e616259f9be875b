/**
 The contract as an object: one method for each Solidity function, updating its
 storage in place. What the called contracts do during the external call is a
 parameter. Every method is proved to be a run of the machine of module Vault.
 */
module VaultContract {
  import opened MapSums
  import opened Wrappers
  import opened Vault
  import opened VaultEntryPoints
  import VaultTheorems

  /** A transaction: nothing if it is refused at entry, else the entry followed by `rest`. */
  function Transaction(v: State, entry: Result<State, Error>, rest: seq<Action>): State {
    match entry
    case Failure(_) => v
    case Success(w) => Run(w, rest)
  }

  /** A transaction that commits new books and holdings, or reverts to what was before. */
  function Commit(v: State, books: Result<Books, Error>, e: Event, held: map<Token, nat>): State {
    match books
    case Failure(_) => v
    case Success(b) => v.(books := b.Emit(e), held := held)
  }

  lemma RunOfTwo(v: State, a: Action, b: Action)
    ensures Run(v, [a, b]) == Step(Step(v, a), b)
  {
    assert [a, b][1..] == [b] && [b][1..] == [];
    assert Run(v, [a, b]) == Run(Step(v, a), [b]);
    assert Run(Step(v, a), [b]) == Run(Step(Step(v, a), b), []);
  }

  lemma DepositCommits(v: State, sender: Address, token: Token, amount: nat, arriving: nat, transferSucceeds: bool)
    requires v.call == Idle && EnterDeposit(v, sender, token, amount).Success?
    ensures Run(EnterDeposit(v, sender, token, amount).value,
                [TokenArrives(token, arriving), if transferSucceeds then DepositReturns else CallReverts])
         == if !transferSucceeds || arriving == 0 then v
            else Commit(v, v.books.Credit(sender, token, arriving), Deposited(sender, token, arriving),
                        v.held[token := Held(v, token) + arriving])
  {
    RunOfTwo(EnterDeposit(v, sender, token, amount).value, TokenArrives(token, arriving),
             if transferSucceeds then DepositReturns else CallReverts);
  }

  lemma DepositETHCommits(v: State, sender: Address, value: nat)
    requires v.call == Idle && EnterDepositETH(v, sender, value).Success?
    ensures Run(EnterDepositETH(v, sender, value).value, [WethWraps, DepositETHReturns])
         == Commit(v, v.books.Credit(sender, v.weth, value), Deposited(sender, v.weth, value),
                   v.held[v.weth := Held(v, v.weth) + value])
  {
    RunOfTwo(EnterDepositETH(v, sender, value).value, WethWraps, DepositETHReturns);
  }

  lemma WithdrawCommits(v: State, sender: Address, token: Token, amount: nat, native: bool, ethSent: bool)
    requires v.call == Idle && EnterWithdraw(v, sender, token, amount, native).Success? && amount <= Held(v, token)
    ensures Run(EnterWithdraw(v, sender, token, amount, native).value, [TokenPays, WithdrawReturns(ethSent)])
         == if native && !ethSent then v
            else Commit(v, v.books.Debit(sender, token, amount), Withdrawn(sender, token, amount),
                        v.held[token := Held(v, token) - amount])
  {
    RunOfTwo(EnterWithdraw(v, sender, token, amount, native).value, TokenPays, WithdrawReturns(ethSent));
  }

  /** The books after a swap: the input debited, the id spent, the output credited. */
  function SwapBooks(v: State, a: SwapArgs, amountOut: nat): Result<Books, Error> {
    match v.books.Debit(a.owner, a.tokenIn, a.amountIn)
    case Failure(e) => Failure(e)
    case Success(b) =>
      if amountOut < a.minAmountOut then Failure(SlippageExceeded(amountOut, a.minAmountOut))
      else b.(executedIds := b.executedIds + {a.executionId}).Credit(a.owner, a.tokenOut, amountOut)
  }

  lemma RouterSwaps(u: State, pulled: nat, delivered: nat)
    requires u.call.Swapping? && pulled <= u.call.allowance && pulled <= Held(u, u.call.args.tokenIn)
    requires u.call.args.tokenIn != u.call.args.tokenOut
    ensures var a := u.call.args; var w := Step(Step(u, RouterPulls(pulled)), RouterDelivers(delivered));
      && w.call.Swapping? && w.call == u.call.(allowance := u.call.allowance - pulled,
                                               delivered := u.call.delivered + delivered)
      && w == u.(held := u.held[a.tokenIn := Held(u, a.tokenIn) - pulled]
                               [a.tokenOut := Held(u, a.tokenOut) + delivered], call := w.call)
  {
  }

  lemma SwapReturnsCommits(v: State, u: State, sender: Address, a: SwapArgs, amountOut: nat)
    requires v.call == Idle && v.books.Debit(a.owner, a.tokenIn, a.amountIn).Success?
    requires u.call.Swapping? && u.call.sender == sender && u.call.args == a && u.call.saved == v
    requires amountOut <= u.call.delivered && u.weth == v.weth && u.policy == v.policy
    requires var b := v.books.Debit(a.owner, a.tokenIn, a.amountIn).value;
             u.books == b.(executedIds := b.executedIds + {a.executionId})
    ensures Step(u, SwapReturns(amountOut))
         == Commit(v, SwapBooks(v, a, amountOut), SwapEvent(sender, a, amountOut), u.held)
  {
  }

  lemma SwapCommits(v: State, sender: Address, a: SwapArgs, timestamp: nat, pulled: nat, delivered: nat, amountOut: nat)
    requires v.call == Idle && EnterSwap(v, sender, a, timestamp).Success?
    requires pulled <= a.amountIn && pulled <= Held(v, a.tokenIn) && amountOut <= delivered
    ensures Run(EnterSwap(v, sender, a, timestamp).value,
                [RouterPulls(pulled), RouterDelivers(delivered), SwapReturns(amountOut)])
         == Commit(v, SwapBooks(v, a, amountOut), SwapEvent(sender, a, amountOut),
                   v.held[a.tokenIn := Held(v, a.tokenIn) - pulled][a.tokenOut := Held(v, a.tokenOut) + delivered])
  {
    var u := EnterSwap(v, sender, a, timestamp).value;
    VaultTheorems.RunOfThree(u, RouterPulls(pulled), RouterDelivers(delivered), SwapReturns(amountOut));
    RouterSwaps(u, pulled, delivered);
    SwapReturnsCommits(v, Step(Step(u, RouterPulls(pulled)), RouterDelivers(delivered)), sender, a, amountOut);
  }

  /** The input debited, the output credited, in balances and totals. */
  ghost predicate Swapped(b: Books, c: Books, a: SwapArgs, amountOut: nat) {
    && (forall p, s :: c.BalanceOf(p, s) == b.BalanceOf(p, s)
          - (if p == a.owner && s == a.tokenIn then a.amountIn else 0)
          + (if p == a.owner && s == a.tokenOut then amountOut else 0))
    && (forall s :: c.Accounted(s) == b.Accounted(s)
          - (if s == a.tokenIn then a.amountIn else 0) + (if s == a.tokenOut then amountOut else 0))
    && c.executedIds == b.executedIds + {a.executionId}
  }

  /** What a swap that settles has moved, spent and logged. */
  ghost predicate SwapSettled(v: State, w: State, sender: Address, a: SwapArgs, pulled: nat, delivered: nat,
                          amountOut: nat)
  {
    && Swapped(v.books, w.books, a, amountOut) && w.policy == v.policy
    && (forall s :: Held(w, s) == Held(v, s)
          - (if s == a.tokenIn then pulled else 0) + (if s == a.tokenOut then delivered else 0))
    && w.books.events
       == v.books.events + [SwapExecuted(a.executionId, a.owner, sender, a.tokenIn, a.tokenOut, a.amountIn, amountOut,
                                         a.minAmountOut, a.poolFee)]
  }

  /** What the vault holds of `t` went up by `x`, and of nothing else. */
  ghost predicate HeldMoved(before: map<Token, nat>, after: map<Token, nat>, t: Token, x: int) {
    forall s :: Lookup(after, s) == Lookup(before, s) + if s == t then x else 0
  }

  /** Everything that executeSwap asks for before it touches the router. */
  predicate Admitted(v: State, sender: Address, a: SwapArgs, timestamp: nat) {
    && sender in v.policy.executors && !v.policy.paused
    && a.executionId != ZERO_ID && a.executionId !in v.books.executedIds && timestamp <= a.deadline
    && a.owner != ZERO_ADDRESS && a.tokenIn != a.tokenOut && {a.tokenIn, a.tokenOut} <= v.policy.allowedToken
    && 0 < a.amountIn <= Lookup(v.policy.maxTradeAmount, a.tokenIn)
    && a.amountIn <= BalanceOf(v, a.owner, a.tokenIn) && a.amountIn <= Accounted(v, a.tokenIn)
  }

  lemma AdmittedExactly(v: State, sender: Address, a: SwapArgs, timestamp: nat)
    requires v.call == Idle
    ensures Admitted(v, sender, a, timestamp) <==> EnterSwap(v, sender, a, timestamp).Success?
  {
  }

  /** A committed credit moves one balance, one total and the holdings; one that does not fit leaves no trace. */
  lemma CreditCommits(v: State, sender: Address, token: Token, x: nat)
    ensures var w := Commit(v, v.books.Credit(sender, token, x), Deposited(sender, token, x),
                            v.held[token := Held(v, token) + x]);
      if !Fits(v.books, sender, token, x) then w == v
      else && Moved(v.books, w.books, sender, token, x) && HeldMoved(v.held, w.held, token, x)
           && w.books.events == v.books.events + [Deposited(sender, token, x)]
  {
    CreditExactly(v.books, sender, token, x);
  }

  lemma DebitExactly(b: Books, u: Address, t: Token, x: nat)
    requires b.Debit(u, t, x).Success?
    ensures var c := b.Debit(u, t, x).value;
            Moved(b, c, u, t, 0 - x) && c.executedIds == b.executedIds && c.events == b.events
  {
  }

  lemma SwapBooksExactly(v: State, a: SwapArgs, amountOut: nat)
    requires v.books.Debit(a.owner, a.tokenIn, a.amountIn).Success? && a.tokenIn != a.tokenOut
    ensures var r := SwapBooks(v, a, amountOut);
      && (r.Success? <==> amountOut >= a.minAmountOut && HasRoom(v, a.owner, a.tokenOut, amountOut))
      && (r.Success? ==> Swapped(v.books, r.value, a, amountOut) && r.value.events == v.books.events)
  {
    DebitExactly(v.books, a.owner, a.tokenIn, a.amountIn);
    var b := v.books.Debit(a.owner, a.tokenIn, a.amountIn).value;
    CreditExactly(b.(executedIds := b.executedIds + {a.executionId}), a.owner, a.tokenOut, amountOut);
  }

  /** A committed swap is one that meets its floor and fits; any other leaves no trace. */
  lemma SwapCommitsExactly(v: State, sender: Address, a: SwapArgs, pulled: nat, delivered: nat, amountOut: nat)
    requires v.books.Debit(a.owner, a.tokenIn, a.amountIn).Success? && a.tokenIn != a.tokenOut
    requires pulled <= Held(v, a.tokenIn)
    ensures var w := Commit(v, SwapBooks(v, a, amountOut), SwapEvent(sender, a, amountOut),
                            v.held[a.tokenIn := Held(v, a.tokenIn) - pulled]
                                  [a.tokenOut := Held(v, a.tokenOut) + delivered]);
      if amountOut >= a.minAmountOut && HasRoom(v, a.owner, a.tokenOut, amountOut)
      then SwapSettled(v, w, sender, a, pulled, delivered, amountOut) else w == v
  {
    SwapBooksExactly(v, a, amountOut);
    var r := SwapBooks(v, a, amountOut);
    if r.Success? {
      var c := r.value.Emit(SwapEvent(sender, a, amountOut));
      assert c.balances == r.value.balances && c.totalAccounted == r.value.totalAccounted;
      assert Swapped(v.books, c, a, amountOut);
    }
  }

  class SyntheticOrderExecutor {
    const weth: Token
    var balances: map<(Address, Token), nat>
    var totalAccounted: map<Token, nat>
    var executedIds: set<ExecutionId>
    var events: seq<Event>
    // allowlist, caps, roles and the pause flag
    var policy: Policy
    // balanceOf(this) in each token contract
    var held: map<Token, nat>

    ghost function View(): State
      reads this
    {
      State(weth, policy, Books(balances, totalAccounted, executedIds, events), held, Idle)
    }

    constructor (weth: Token, admin: Address, executor: Address)
      requires weth != ZERO_ADDRESS && admin != ZERO_ADDRESS
      ensures View() == Init(weth, admin, executor)
      ensures !policy.paused && policy.executor == executor && policy.allowedToken == {}
      ensures policy.admins == policy.pausers == {admin}
      ensures policy.executors == if executor != ZERO_ADDRESS then {executor} else {}
      ensures balances == map[] && totalAccounted == map[] && executedIds == {}
    {
      this.weth := weth;
      balances, totalAccounted, held, executedIds := map[], map[], map[], {};
      if executor != ZERO_ADDRESS {
        policy := Policy({}, map[], executor, {executor}, {admin}, {admin}, false);
        events := [ExecutorUpdated(ZERO_ADDRESS, executor)];
      } else {
        policy := Policy({}, map[], executor, {}, {admin}, {admin}, false);
        events := [];
      }
    }

    /** `arriving` is what the token moves into the vault during `safeTransferFrom`. */
    method Deposit(sender: Address, token: Token, amount: nat, arriving: nat, transferSucceeds: bool)
      returns (r: Result<nat, Error>)
      modifies this
      ensures View() == Transaction(old(View()), EnterDeposit(old(View()), sender, token, amount),
                                    [TokenArrives(token, arriving),
                                     if transferSucceeds then DepositReturns else CallReverts])
      ensures r.Success? <==>
                && !old(policy).paused && token in old(policy).allowedToken && amount > 0
                && transferSucceeds && arriving > 0 && Fits(old(View()).books, sender, token, arriving)
      ensures r.Success? ==>
                && r.value == arriving && Moved(old(View()).books, View().books, sender, token, arriving)
                && HeldMoved(old(held), held, token, arriving)
                && events == old(events) + [Deposited(sender, token, arriving)]
      ensures r.Failure? ==> View() == old(View())
      ensures r == Failure(EnforcedPause) <==> old(policy).paused
      ensures r == Failure(TokenNotAllowed(token)) <==> !old(policy).paused && token !in old(policy).allowedToken
      ensures r == Failure(ZeroAmount) <==>
                && !old(policy).paused && token in old(policy).allowedToken
                && (amount == 0 || (transferSucceeds && arriving == 0))
    {
      ghost var v := View();
      if policy.paused { return Failure(EnforcedPause); }
      if token !in policy.allowedToken { return Failure(TokenNotAllowed(token)); }
      if amount == 0 { return Failure(ZeroAmount); }
      DepositCommits(v, sender, token, amount, arriving, transferSucceeds);
      CreditCommits(v, sender, token, arriving);

      if !transferSucceeds { return Failure(ExternalCallFailed); }
      var balanceBefore := Lookup(held, token);
      var received := balanceBefore + arriving - balanceBefore;
      if received == 0 { return Failure(ZeroAmount); }
      r := CreditReceived(sender, token, received);
    }

    /** Credit what the token contract has just moved in. */
    method CreditReceived(sender: Address, token: Token, received: nat) returns (r: Result<nat, Error>)
      modifies this
      ensures View() == Commit(old(View()), old(View()).books.Credit(sender, token, received),
                               Deposited(sender, token, received),
                               old(held)[token := Lookup(old(held), token) + received])
      ensures r.Success? <==> Fits(old(View()).books, sender, token, received)
      ensures r == if r.Success? then Success(received) else Failure(ArithmeticPanic)
    {
      var ok := AddTo(sender, token, received);
      if !ok { return Failure(ArithmeticPanic); }
      held := held[token := Lookup(held, token) + received];
      events := events + [Deposited(sender, token, received)];
      return Success(received);
    }

    method DepositETH(sender: Address, value: nat) returns (r: Result<nat, Error>)
      modifies this
      ensures View() == Transaction(old(View()), EnterDepositETH(old(View()), sender, value),
                                    [WethWraps, DepositETHReturns])
      ensures r.Success? <==>
                && !old(policy).paused && value > 0 && weth in old(policy).allowedToken
                && Fits(old(View()).books, sender, weth, value)
      ensures r.Success? ==>
                && r.value == value && Moved(old(View()).books, View().books, sender, weth, value)
                && HeldMoved(old(held), held, weth, value)
                && events == old(events) + [Deposited(sender, weth, value)]
      ensures r.Failure? ==> View() == old(View())
      ensures r == Failure(EnforcedPause) <==> old(policy).paused
      ensures r == Failure(ZeroAmount) <==> !old(policy).paused && value == 0
      ensures r == Failure(TokenNotAllowed(weth)) <==>
                !old(policy).paused && value > 0 && weth !in old(policy).allowedToken
    {
      ghost var v := View();
      if policy.paused { return Failure(EnforcedPause); }
      if value == 0 { return Failure(ZeroAmount); }
      if weth !in policy.allowedToken { return Failure(TokenNotAllowed(weth)); }
      DepositETHCommits(v, sender, value);
      CreditCommits(v, sender, weth, value);

      r := CreditReceived(sender, weth, value);
    }

    /** `withdraw` and, with `native`, `withdrawETH`, whose last call sends the unwrapped ETH to the sender. */
    method Withdraw(sender: Address, token: Token, amount: nat, native: bool, transferSucceeds: bool, ethSent: bool)
      returns (r: Result<nat, Error>)
      requires native ==> token == weth
      requires transferSucceeds ==> amount <= Lookup(held, token)
      modifies this
      ensures View() == Transaction(old(View()), EnterWithdraw(old(View()), sender, token, amount, native),
                                    if transferSucceeds then [TokenPays, WithdrawReturns(ethSent)]
                                    else [CallReverts, CallReverts])
      ensures r.Success? <==>
                && 0 < amount <= Lookup(old(balances), (sender, token))
                && amount <= Lookup(old(totalAccounted), token) && transferSucceeds && (native ==> ethSent)
      ensures r.Success? ==>
                && r.value == amount && Moved(old(View()).books, View().books, sender, token, 0 - amount)
                && HeldMoved(old(held), held, token, 0 - amount)
                && events == old(events) + [Withdrawn(sender, token, amount)]
      ensures r.Failure? ==> View() == old(View())
      ensures r == Failure(ZeroAmount) <==> amount == 0
      ensures r == Failure(InsufficientBalance(Lookup(old(balances), (sender, token)), amount)) <==>
                amount > Lookup(old(balances), (sender, token))
    {
      ghost var v := View();
      if amount == 0 { return Failure(ZeroAmount); }
      var available := Lookup(balances, (sender, token));
      if available < amount { return Failure(InsufficientBalance(available, amount)); }
      if Lookup(totalAccounted, token) < amount { return Failure(ArithmeticPanic); }
      if transferSucceeds {
        WithdrawCommits(v, sender, token, amount, native, ethSent);
      } else {
        RunOfTwo(EnterWithdraw(v, sender, token, amount, native).value, CallReverts, CallReverts);
      }

      var savedBalances, savedTotals := balances, totalAccounted;
      SubtractFrom(sender, token, amount);
      if !transferSucceeds || (native && !ethSent) {
        balances, totalAccounted := savedBalances, savedTotals;
        return Failure(if transferSucceeds then EthTransferFailed else ExternalCallFailed);
      }
      held := held[token := Lookup(held, token) - amount];
      events := events + [Withdrawn(sender, token, amount)];
      return Success(amount);
    }

    /** The checks of `executeSwap`, in order. */
    method SwapRefusal(sender: Address, a: SwapArgs, timestamp: nat) returns (refusal: Option<Error>)
      ensures refusal.None? <==> EnterSwap(View(), sender, a, timestamp).Success?
      ensures refusal.Some? ==> EnterSwap(View(), sender, a, timestamp) == Failure(refusal.value)
    {
      if sender !in policy.executors { return Some(Unauthorized); }
      if policy.paused { return Some(EnforcedPause); }
      if a.executionId == ZERO_ID { return Some(InvalidExecutionId); }
      if a.executionId in executedIds { return Some(ExecutionAlreadyProcessed); }
      if timestamp > a.deadline { return Some(DeadlineExpired); }
      if a.owner == ZERO_ADDRESS { return Some(ZeroAddress); }
      if a.tokenIn == a.tokenOut { return Some(IdenticalTokens); }
      if a.tokenIn !in policy.allowedToken { return Some(TokenNotAllowed(a.tokenIn)); }
      if a.tokenOut !in policy.allowedToken { return Some(TokenNotAllowed(a.tokenOut)); }
      if a.amountIn == 0 { return Some(ZeroAmount); }
      var maxAmount := Lookup(policy.maxTradeAmount, a.tokenIn);
      if a.amountIn > maxAmount { return Some(TradeTooLarge(a.amountIn, maxAmount)); }
      var available := Lookup(balances, (a.owner, a.tokenIn));
      if available < a.amountIn { return Some(InsufficientBalance(available, a.amountIn)); }
      if Lookup(totalAccounted, a.tokenIn) < a.amountIn { return Some(ArithmeticPanic); }
      return None;
    }

    /** The router pulls `pulled`, delivers `delivered` and reports `amountOut`. */
    method ExecuteSwap(sender: Address, a: SwapArgs, timestamp: nat, pulled: nat, delivered: nat, amountOut: nat)
      returns (r: Result<nat, Error>)
      requires pulled <= a.amountIn && pulled <= Lookup(held, a.tokenIn) && amountOut <= delivered
      modifies this
      ensures View() == Transaction(old(View()), EnterSwap(old(View()), sender, a, timestamp),
                                    [RouterPulls(pulled), RouterDelivers(delivered), SwapReturns(amountOut)])
      ensures r.Success? <==>
                && Admitted(old(View()), sender, a, timestamp) && amountOut >= a.minAmountOut
                && Lookup(old(balances), (a.owner, a.tokenOut)) + amountOut <= MAX_UINT256
                && Lookup(old(totalAccounted), a.tokenOut) + amountOut <= MAX_UINT256
      ensures r.Success? ==>
                SwapSettled(old(View()), View(), sender, a, pulled, delivered, amountOut) && r.value == amountOut
      ensures r.Failure? ==> View() == old(View())
      ensures Admitted(old(View()), sender, a, timestamp) ==>
                (r == Failure(SlippageExceeded(amountOut, a.minAmountOut)) <==> amountOut < a.minAmountOut)
    {
      ghost var v := View();
      var refusal := SwapRefusal(sender, a, timestamp);
      AdmittedExactly(v, sender, a, timestamp);
      if refusal.Some? { return Failure(refusal.value); }
      SwapCommits(v, sender, a, timestamp, pulled, delivered, amountOut);
      SwapCommitsExactly(v, sender, a, pulled, delivered, amountOut);
      r := SettleSwap(sender, a, pulled, delivered, amountOut);
    }

    /** The effects before the router call. */
    method TakeInput(a: SwapArgs)
      requires View().books.Debit(a.owner, a.tokenIn, a.amountIn).Success?
      modifies `balances, `totalAccounted, `executedIds
      ensures View().books == var b := old(View()).books.Debit(a.owner, a.tokenIn, a.amountIn).value;
                              b.(executedIds := b.executedIds + {a.executionId})
    {
      executedIds := executedIds + {a.executionId};
      SubtractFrom(a.owner, a.tokenIn, a.amountIn);
    }

    /** The two subtractions, once the balance is known to cover them. */
    method SubtractFrom(user: Address, token: Token, amount: nat)
      requires View().books.Debit(user, token, amount).Success?
      modifies `balances, `totalAccounted
      ensures View().books == old(View()).books.Debit(user, token, amount).value
    {
      balances := balances[(user, token) := Lookup(balances, (user, token)) - amount];
      totalAccounted := totalAccounted[token := Lookup(totalAccounted, token) - amount];
    }

    /** Solidity's two checked additions; false is the panic. */
    method AddTo(user: Address, token: Token, amount: nat) returns (ok: bool)
      modifies `balances, `totalAccounted
      ensures ok <==> Fits(old(View()).books, user, token, amount)
      ensures ok <==> old(View()).books.Credit(user, token, amount).Success?
      ensures View().books == if ok then old(View()).books.Credit(user, token, amount).value else old(View()).books
    {
      var newBalance, newTotal := Lookup(balances, (user, token)) + amount, Lookup(totalAccounted, token) + amount;
      if newBalance > MAX_UINT256 || newTotal > MAX_UINT256 { return false; }
      balances := balances[(user, token) := newBalance];
      totalAccounted := totalAccounted[token := newTotal];
      return true;
    }

    /** The effects of `executeSwap`, undone if the swap fails after the router call. */
    method SettleSwap(sender: Address, a: SwapArgs, pulled: nat, delivered: nat, amountOut: nat)
      returns (r: Result<nat, Error>)
      requires pulled <= Lookup(held, a.tokenIn) && View().books.Debit(a.owner, a.tokenIn, a.amountIn).Success?
      requires a.tokenIn != a.tokenOut
      modifies this
      ensures View() == Commit(old(View()), SwapBooks(old(View()), a, amountOut), SwapEvent(sender, a, amountOut),
                               old(held)[a.tokenIn := Lookup(old(held), a.tokenIn) - pulled]
                                        [a.tokenOut := Lookup(old(held), a.tokenOut) + delivered])
      ensures r.Success? <==> amountOut >= a.minAmountOut && HasRoom(old(View()), a.owner, a.tokenOut, amountOut)
      ensures r.Success? ==> r.value == amountOut
      ensures r == Failure(SlippageExceeded(amountOut, a.minAmountOut)) <==> amountOut < a.minAmountOut
    {
      var savedBalances, savedTotals, savedIds := balances, totalAccounted, executedIds;
      TakeInput(a);
      var refused := amountOut < a.minAmountOut;
      var ok := false;
      if !refused { ok := AddTo(a.owner, a.tokenOut, amountOut); }
      if !ok {
        balances, totalAccounted, executedIds := savedBalances, savedTotals, savedIds;
        return Failure(if refused then SlippageExceeded(amountOut, a.minAmountOut) else ArithmeticPanic);
      }
      held := held[a.tokenIn := Lookup(held, a.tokenIn) - pulled][a.tokenOut := Lookup(held, a.tokenOut) + delivered];
      events := events + [SwapEvent(sender, a, amountOut)];
      return Success(amountOut);
    }

    method SetExecutor(sender: Address, next: Address) returns (r: Result<(), Error>)
      modifies this
      ensures View() == Step(old(View()), AdminSetExecutor(sender, next))
      ensures r.Success? <==> sender in old(policy).admins
      ensures r.Failure? ==> r.error == Unauthorized && View() == old(View())
      ensures r.Success? ==> policy.executor == next
      ensures r.Success? ==>
                events == old(events) + if old(policy).executor == next then []
                                        else [ExecutorUpdated(old(policy).executor, next)]
      ensures r.Success? && old(policy).executor != next ==>
                && (next != ZERO_ADDRESS ==> next in policy.executors)
                && (old(policy).executor != ZERO_ADDRESS ==> old(policy).executor !in policy.executors)
                && (forall x :: x != next && x != old(policy).executor ==>
                      (x in policy.executors <==> x in old(policy).executors))
    {
      if sender !in policy.admins { return Failure(Unauthorized); }
      var previous := policy.executor;
      if previous == next { return Success(()); }
      if previous != ZERO_ADDRESS { policy := policy.(executors := policy.executors - {previous}); }
      policy := policy.(executor := next);
      if next != ZERO_ADDRESS { policy := policy.(executors := policy.executors + {next}); }
      events := events + [ExecutorUpdated(previous, next)];
      return Success(());
    }

    method SetTokenAllowed(sender: Address, token: Token, maxAmount: nat) returns (r: Result<(), Error>)
      modifies this
      ensures View() == Step(old(View()), AdminSetTokenAllowed(sender, token, maxAmount))
      ensures r.Success? <==> sender in old(policy).admins && token != ZERO_ADDRESS && maxAmount > 0
      ensures r.Success? ==>
                && policy == old(policy).(allowedToken := old(policy).allowedToken + {token},
                                          maxTradeAmount := policy.maxTradeAmount)
                && (forall t :: Lookup(policy.maxTradeAmount, t)
                                == if t == token then maxAmount else Lookup(old(policy).maxTradeAmount, t))
                && events == old(events) + [TokenAllowed(token, maxAmount)]
      ensures r.Failure? ==> View() == old(View())
      ensures r == Failure(Unauthorized) <==> sender !in old(policy).admins
      ensures r == Failure(ZeroAddress) <==> sender in old(policy).admins && token == ZERO_ADDRESS
    {
      if sender !in policy.admins { return Failure(Unauthorized); }
      if token == ZERO_ADDRESS { return Failure(ZeroAddress); }
      if maxAmount == 0 { return Failure(ZeroAmount); }
      policy := policy.(allowedToken := policy.allowedToken + {token},
                        maxTradeAmount := policy.maxTradeAmount[token := maxAmount]);
      events := events + [TokenAllowed(token, maxAmount)];
      return Success(());
    }

    method RemoveToken(sender: Address, token: Token) returns (r: Result<(), Error>)
      modifies this
      ensures View() == Step(old(View()), AdminRemoveToken(sender, token))
      ensures r.Success? <==> sender in old(policy).admins && token in old(policy).allowedToken
      ensures r.Success? ==>
                && policy == old(policy).(allowedToken := old(policy).allowedToken - {token},
                                          maxTradeAmount := policy.maxTradeAmount)
                && (forall t :: Lookup(policy.maxTradeAmount, t)
                                == if t == token then 0 else Lookup(old(policy).maxTradeAmount, t))
                && events == old(events) + [TokenRemoved(token)]
      ensures r.Failure? ==> View() == old(View())
      ensures r == Failure(Unauthorized) <==> sender !in old(policy).admins
    {
      if sender !in policy.admins { return Failure(Unauthorized); }
      if token !in policy.allowedToken { return Failure(TokenNotAllowed(token)); }
      policy := policy.(allowedToken := policy.allowedToken - {token},
                        maxTradeAmount := policy.maxTradeAmount[token := 0]);
      events := events + [TokenRemoved(token)];
      return Success(());
    }

    method SetMaxTradeAmount(sender: Address, token: Token, amount: nat) returns (r: Result<(), Error>)
      modifies this
      ensures View() == Step(old(View()), AdminSetMaxTradeAmount(sender, token, amount))
      ensures r.Success? <==> sender in old(policy).admins && token in old(policy).allowedToken && amount > 0
      ensures r.Success? ==>
                && Lookup(policy.maxTradeAmount, token) == amount
                && events == old(events)
                             + [MaxTradeAmountUpdated(token, Lookup(old(policy).maxTradeAmount, token), amount)]
      ensures r.Failure? ==> View() == old(View())
      ensures r == Failure(Unauthorized) <==> sender !in old(policy).admins
      ensures r == Failure(TokenNotAllowed(token)) <==>
                sender in old(policy).admins && token !in old(policy).allowedToken
    {
      if sender !in policy.admins { return Failure(Unauthorized); }
      if token !in policy.allowedToken { return Failure(TokenNotAllowed(token)); }
      if amount == 0 { return Failure(ZeroAmount); }
      var previous := Lookup(policy.maxTradeAmount, token);
      policy := policy.(maxTradeAmount := policy.maxTradeAmount[token := amount]);
      events := events + [MaxTradeAmountUpdated(token, previous, amount)];
      return Success(());
    }

    method Pause(sender: Address) returns (r: Result<(), Error>)
      modifies this
      ensures View() == Step(old(View()), AdminPause(sender))
      ensures r.Success? <==> sender in old(policy).pausers && !old(policy).paused
      ensures r.Success? ==> policy.paused && events == old(events) + [Paused(sender)]
      ensures r.Failure? ==> View() == old(View())
      ensures r == Failure(Unauthorized) <==> sender !in old(policy).pausers
    {
      if sender !in policy.pausers { return Failure(Unauthorized); }
      if policy.paused { return Failure(EnforcedPause); }
      policy := policy.(paused := true);
      events := events + [Paused(sender)];
      return Success(());
    }

    method Unpause(sender: Address) returns (r: Result<(), Error>)
      modifies this
      ensures View() == Step(old(View()), AdminUnpause(sender))
      ensures r.Success? <==> sender in old(policy).admins && old(policy).paused
      ensures r.Success? ==> !policy.paused && events == old(events) + [Unpaused(sender)]
      ensures r.Failure? ==> View() == old(View())
      ensures r == Failure(Unauthorized) <==> sender !in old(policy).admins
    {
      if sender !in policy.admins { return Failure(Unauthorized); }
      if !policy.paused { return Failure(ExpectedPause); }
      policy := policy.(paused := false);
      events := events + [Unpaused(sender)];
      return Success(());
    }

    method SweepUnaccounted(sender: Address, token: Token, to: Address) returns (r: Result<nat, Error>)
      modifies this
      ensures View() == Step(old(View()), AdminSweep(sender, token, to))
      ensures r.Success? <==>
                && sender in old(policy).admins && to != ZERO_ADDRESS
                && Lookup(old(held), token) > Lookup(old(totalAccounted), token)
      ensures r.Success? ==>
                && r.value == Lookup(old(held), token) - Lookup(old(totalAccounted), token)
                && Lookup(held, token) == Lookup(totalAccounted, token)
                && HeldMoved(old(held), held, token, 0 - r.value)
      ensures r.Failure? ==> View() == old(View())
      ensures r == Failure(Unauthorized) <==> sender !in old(policy).admins
      ensures r == Failure(NothingToSweep) <==>
                && sender in old(policy).admins && to != ZERO_ADDRESS
                && Lookup(old(held), token) <= Lookup(old(totalAccounted), token)
    {
      if sender !in policy.admins { return Failure(Unauthorized); }
      if to == ZERO_ADDRESS { return Failure(ZeroAddress); }
      var balance, owed := Lookup(held, token), Lookup(totalAccounted, token);
      var amount := if balance > owed then balance - owed else 0;
      if amount == 0 { return Failure(NothingToSweep); }
      held := held[token := balance - amount];
      events := events + [UnaccountedSwept(token, to, amount)];
      return Success(amount);
    }
  }
}
