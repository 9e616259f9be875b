/**
 What each entry point of the vault does, said of balances, totals, holdings and
 roles: when it is admitted, with which error it is refused, and what it leaves.
 */
module VaultEntryPoints {
  import opened MapSums
  import opened Wrappers
  import opened Vault
  import opened VaultInvariants
  import opened VaultTheorems

  /** Nothing but the balance and the total of one user and token moved, by `x`. */
  ghost predicate Moved(b: Books, c: Books, u: Address, t: Token, x: int) {
    && (forall p, s :: c.BalanceOf(p, s) == b.BalanceOf(p, s) + if p == u && s == t then x else 0)
    && (forall s :: c.Accounted(s) == b.Accounted(s) + if s == t then x else 0)
  }

  /** The two additions stay within 256 bits. */
  predicate Fits(b: Books, u: Address, t: Token, x: nat) {
    b.BalanceOf(u, t) + x <= MAX_UINT256 && b.Accounted(t) + x <= MAX_UINT256
  }

  lemma CreditExactly(b: Books, u: Address, t: Token, x: nat)
    ensures b.Credit(u, t, x).Success? <==> Fits(b, u, t, x)
    ensures b.Credit(u, t, x).Success? ==>
              var c := b.Credit(u, t, x).value;
              Moved(b, c, u, t, x) && c.executedIds == b.executedIds && c.events == b.events
  {
  }

  // ---- deposits --------------------------------------------------------------

  /** A deposit is admitted exactly if the vault is unpaused and idle, the token allowlisted, the amount positive. */
  lemma DepositAdmittedExactly(v: State, sender: Address, token: Token, amount: nat)
    ensures var r := EnterDeposit(v, sender, token, amount);
      && (r.Success? <==> !v.policy.paused && v.call == Idle && token in v.policy.allowedToken && amount > 0)
      && (r == Failure(EnforcedPause) <==> v.policy.paused)
      && (r == Failure(ReentrantCall) <==> !v.policy.paused && v.call != Idle)
      && (r == Failure(TokenNotAllowed(token)) <==>
            !v.policy.paused && v.call == Idle && token !in v.policy.allowedToken)
      && (r == Failure(ZeroAmount) <==>
            !v.policy.paused && v.call == Idle && token in v.policy.allowedToken && amount == 0)
  {
  }

  /** The same for ETH, which is credited as WETH. */
  lemma DepositETHAdmittedExactly(v: State, sender: Address, value: nat)
    ensures var r := EnterDepositETH(v, sender, value);
      && (r.Success? <==> !v.policy.paused && v.call == Idle && v.weth in v.policy.allowedToken && value > 0)
      && (r == Failure(EnforcedPause) <==> v.policy.paused)
      && (r == Failure(ReentrantCall) <==> !v.policy.paused && v.call != Idle)
      && (r == Failure(ZeroAmount) <==> !v.policy.paused && v.call == Idle && value == 0)
      && (r == Failure(TokenNotAllowed(v.weth)) <==>
            !v.policy.paused && v.call == Idle && value > 0 && v.weth !in v.policy.allowedToken)
  {
  }

  /**
   When control comes back, a deposit settles exactly if something arrived since it
   was entered and the additions fit; it credits what arrived, whatever was asked for,
   to the depositor and nobody else. Else the transaction leaves no trace.
   */
  lemma DepositSettlesExactly(v: State)
    requires v.call.Depositing?
    ensures var c := v.call; var w := Step(v, DepositReturns);
      var arrived := Held(v, c.token) - c.balanceBefore;
      if arrived > 0 && Fits(v.books, c.user, c.token, arrived)
      then w.call == Idle && Moved(v.books, w.books, c.user, c.token, arrived) && w.held == v.held
           && w.books.events == v.books.events + [Deposited(c.user, c.token, arrived)]
      else w == c.saved
  {
    var arrived := Held(v, v.call.token) - v.call.balanceBefore;
    if arrived > 0 { CreditExactly(v.books, v.call.user, v.call.token, arrived); }
  }

  // ---- swaps -----------------------------------------------------------------

  /** Why a swap is refused: the first of the checks, in the order of the code, that fails. */
  lemma SwapRefusedExactly(v: State, sender: Address, a: SwapArgs, timestamp: nat)
    requires Invariant(v)
    ensures var r := EnterSwap(v, sender, a, timestamp); var p := v.policy;
      var called := sender in p.executors && !p.paused && v.call == Idle;
      var timely := called && a.executionId != ZERO_ID && a.executionId !in v.books.executedIds
                   && timestamp <= a.deadline;
      var named := timely && a.owner != ZERO_ADDRESS && a.tokenIn != a.tokenOut;
      var allowed := named && a.tokenIn in p.allowedToken && a.tokenOut in p.allowedToken;
      var cap := Lookup(p.maxTradeAmount, a.tokenIn);
      && (r == Failure(Unauthorized) <==> sender !in p.executors)
      && (r == Failure(EnforcedPause) <==> sender in p.executors && p.paused)
      && (r == Failure(ReentrantCall) <==> sender in p.executors && !p.paused && v.call != Idle)
      && (r == Failure(InvalidExecutionId) <==> called && a.executionId == ZERO_ID)
      && (r == Failure(ExecutionAlreadyProcessed) <==>
            called && a.executionId != ZERO_ID && a.executionId in v.books.executedIds)
      && (r == Failure(DeadlineExpired) <==>
            called && a.executionId != ZERO_ID && a.executionId !in v.books.executedIds && timestamp > a.deadline)
      && (r == Failure(ZeroAddress) <==> timely && a.owner == ZERO_ADDRESS)
      && (r == Failure(IdenticalTokens) <==> timely && a.owner != ZERO_ADDRESS && a.tokenIn == a.tokenOut)
      && (r == Failure(TokenNotAllowed(a.tokenIn)) <==> named && a.tokenIn !in p.allowedToken)
      && (r == Failure(TokenNotAllowed(a.tokenOut)) <==>
            named && a.tokenIn in p.allowedToken && a.tokenOut !in p.allowedToken)
      && (r == Failure(ZeroAmount) <==> allowed && a.amountIn == 0)
      && (r == Failure(TradeTooLarge(a.amountIn, cap)) <==> allowed && 0 < a.amountIn && a.amountIn > cap)
      && (r == Failure(InsufficientBalance(BalanceOf(v, a.owner, a.tokenIn), a.amountIn)) <==>
            allowed && 0 < a.amountIn <= cap && a.amountIn > BalanceOf(v, a.owner, a.tokenIn))
  {
    DebitNeverPanics(v.books, a.owner, a.tokenIn, a.amountIn);
  }

  /** The books while a swap is on the stack: the input debited and the id spent, whatever happens inside. */
  lemma InsideAdmittedSwap(v: State, sender: Address, a: SwapArgs, timestamp: nat, inner: seq<Action>)
    requires v.call == Idle && EnterSwap(v, sender, a, timestamp).Success?
    requires forall i :: 0 <= i < |inner| ==> !inner[i].SwapReturns? && !inner[i].CallReverts?
    ensures var u := Run(Step(v, ExecuteSwap(sender, a, timestamp)), inner);
      && u.call.Swapping? && u.call.args == a && u.call.sender == sender && u.call.saved == v
      && Moved(v.books, u.books, a.owner, a.tokenIn, 0 - a.amountIn)
      && u.books.executedIds == v.books.executedIds + {a.executionId}
  {
    var entered := EnterSwap(v, sender, a, timestamp).value;
    assert Step(v, ExecuteSwap(sender, a, timestamp)) == entered;
    assert Moved(v.books, entered.books, a.owner, a.tokenIn, 0 - a.amountIn);
    InsideSwapRun(entered, inner);
    SenderStays(entered, inner);
  }

  /** The return of a swap settles it exactly if the floor is met and the additions fit. */
  lemma SwapReturnsExactly(u: State, amountOut: nat)
    requires u.call.Swapping? && amountOut <= u.call.delivered
    ensures var a := u.call.args; var w := Step(u, SwapReturns(amountOut));
      if amountOut >= a.minAmountOut && Fits(u.books, a.owner, a.tokenOut, amountOut)
      then w.call == Idle && w.held == u.held && Moved(u.books, w.books, a.owner, a.tokenOut, amountOut)
           && w.books.executedIds == u.books.executedIds
           && w.books.events
              == u.books.events + [SwapExecuted(a.executionId, a.owner, u.call.sender, a.tokenIn, a.tokenOut,
                                                a.amountIn, amountOut, a.minAmountOut, a.poolFee)]
      else w == u.call.saved
  {
    CreditExactly(u.books, u.call.args.owner, u.call.args.tokenOut, amountOut);
  }

  /** The owner's balance and the total of the output token have room for the amount. */
  predicate HasRoom(v: State, owner: Address, token: Token, amount: nat) {
    BalanceOf(v, owner, token) + amount <= MAX_UINT256 && Accounted(v, token) + amount <= MAX_UINT256
  }

  /**
   An admitted swap settles exactly if the router reports at least the floor and the
   credit fits; whatever else happens inside the router call. If so, the owner's two
   balances and the two totals move by the two amounts, and the id is spent.
   */
  lemma SwapSettlesExactly(v: State, sender: Address, a: SwapArgs, timestamp: nat, inner: seq<Action>, amountOut: nat)
    requires v.call == Idle && EnterSwap(v, sender, a, timestamp).Success?
    requires forall i :: 0 <= i < |inner| ==> !inner[i].SwapReturns? && !inner[i].CallReverts?
    requires var u := Run(Step(v, ExecuteSwap(sender, a, timestamp)), inner);
             u.call.Swapping? && amountOut <= u.call.delivered
    ensures var w := WholeSwap(v, sender, a, timestamp, inner, amountOut);
      && w.call == Idle
      && (w != v <==> amountOut >= a.minAmountOut && HasRoom(v, a.owner, a.tokenOut, amountOut))
      && (w != v ==>
            && w.books.executedIds == v.books.executedIds + {a.executionId}
            && (forall p, s :: BalanceOf(w, p, s) == BalanceOf(v, p, s)
                  - (if p == a.owner && s == a.tokenIn then a.amountIn else 0)
                  + (if p == a.owner && s == a.tokenOut then amountOut else 0))
            && (forall s :: Accounted(w, s) == Accounted(v, s)
                  - (if s == a.tokenIn then a.amountIn else 0) + (if s == a.tokenOut then amountOut else 0)))
  {
    var u := Run(Step(v, ExecuteSwap(sender, a, timestamp)), inner);
    InsideAdmittedSwap(v, sender, a, timestamp, inner);
    SwapReturnsExactly(u, amountOut);
    assert BalanceOf(u, a.owner, a.tokenOut) == BalanceOf(v, a.owner, a.tokenOut);
    assert Accounted(u, a.tokenOut) == Accounted(v, a.tokenOut);
    assert a.executionId !in v.books.executedIds;
  }

  // ---- withdrawals -----------------------------------------------------------

  /** A withdrawal needs a positive amount within the caller's own balance, and nothing else. */
  lemma WithdrawalAdmittedExactly(v: State, sender: Address, token: Token, amount: nat, native: bool)
    requires Invariant(v)
    ensures var r := EnterWithdraw(v, sender, token, amount, native);
      && (r.Success? <==> v.call == Idle && 0 < amount <= BalanceOf(v, sender, token))
      && (r == Failure(ReentrantCall) <==> v.call != Idle)
      && (r == Failure(ZeroAmount) <==> v.call == Idle && amount == 0)
      && (r == Failure(InsufficientBalance(BalanceOf(v, sender, token), amount)) <==>
            v.call == Idle && amount > BalanceOf(v, sender, token))
      && (r.Success? ==> Moved(v.books, r.value.books, sender, token, 0 - amount) && r.value.held == v.held)
  {
    DebitNeverPanics(v.books, sender, token, amount);
  }

  // ---- administration --------------------------------------------------------

  /** Who may take the step. */
  predicate Holds(p: Policy, a: Action)
    requires IsAdmin(a)
  {
    if a.AdminPause? then a.sender in p.pausers else a.sender in p.admins
  }

  /** Whoever lacks the role changes nothing. */
  lemma AdminNeedsRole(v: State, a: Action)
    requires IsAdmin(a) && !Holds(v.policy, a)
    ensures Step(v, a) == v
  {
  }

  lemma SetExecutorExactly(v: State, sender: Address, next: Address)
    requires sender in v.policy.admins
    ensures var p, q := v.policy, Step(v, AdminSetExecutor(sender, next)).policy;
      && q.executor == next
      && (forall x :: x in q.executors <==>
            if p.executor == next then x in p.executors
            else (x == next && next != ZERO_ADDRESS)
                 || (x in p.executors && !(x == p.executor && p.executor != ZERO_ADDRESS)))
      && q == p.(executor := next, executors := q.executors)
  {
  }

  lemma SetTokenAllowedExactly(v: State, sender: Address, token: Token, maxAmount: nat)
    requires sender in v.policy.admins
    ensures var p, w := v.policy, Step(v, AdminSetTokenAllowed(sender, token, maxAmount)); var q := w.policy;
      if token == ZERO_ADDRESS || maxAmount == 0 then w == v
      else && (forall t :: t in q.allowedToken <==> t in p.allowedToken || t == token)
           && (forall t :: Lookup(q.maxTradeAmount, t) == if t == token then maxAmount else Lookup(p.maxTradeAmount, t))
           && q == p.(allowedToken := q.allowedToken, maxTradeAmount := q.maxTradeAmount)
  {
  }

  lemma RemoveTokenExactly(v: State, sender: Address, token: Token)
    requires sender in v.policy.admins
    ensures var p, w := v.policy, Step(v, AdminRemoveToken(sender, token)); var q := w.policy;
      if token !in p.allowedToken then w == v
      else && (forall t :: t in q.allowedToken <==> t in p.allowedToken && t != token)
           && (forall t :: Lookup(q.maxTradeAmount, t) == if t == token then 0 else Lookup(p.maxTradeAmount, t))
           && q == p.(allowedToken := q.allowedToken, maxTradeAmount := q.maxTradeAmount)
  {
  }

  lemma SetMaxTradeAmountExactly(v: State, sender: Address, token: Token, amount: nat)
    requires sender in v.policy.admins
    ensures var p, w := v.policy, Step(v, AdminSetMaxTradeAmount(sender, token, amount)); var q := w.policy;
      if token !in p.allowedToken || amount == 0 then w == v
      else && (forall t :: Lookup(q.maxTradeAmount, t) == if t == token then amount else Lookup(p.maxTradeAmount, t))
           && q == p.(maxTradeAmount := q.maxTradeAmount)
  {
  }

  /** Pausing is the pausers', resuming the admins'; neither does anything twice. */
  lemma PauseExactly(v: State, sender: Address)
    ensures var p, q := v.policy, Step(v, AdminPause(sender)).policy;
            q == p.(paused := q.paused) && (q.paused <==> p.paused || sender in p.pausers)
    ensures var p, q := v.policy, Step(v, AdminUnpause(sender)).policy;
            q == p.(paused := q.paused) && (q.paused <==> p.paused && sender !in p.admins)
  {
  }

  /** A sweep takes the surplus, all of it and no more, and only between transactions. */
  lemma SweepExactly(v: State, sender: Address, token: Token, to: Address)
    requires sender in v.policy.admins
    ensures var w := Step(v, AdminSweep(sender, token, to));
      if v.call != Idle || to == ZERO_ADDRESS || Held(v, token) <= Accounted(v, token) then w == v
      else && Held(w, token) == Accounted(v, token)
           && (forall t :: t != token ==> Held(w, t) == Held(v, t))
           && w.policy == v.policy && w.call == v.call
           && w.books.events == v.books.events
                                + [UnaccountedSwept(token, to, Held(v, token) - Accounted(v, token))]
  {
  }

  // ---- deployment ------------------------------------------------------------

  /** A new vault: nothing allowed, owed or spent, unpaused, the admin in both roles, the executor if given. */
  lemma InitExactly(weth: Token, admin: Address, executor: Address)
    ensures var v := Init(weth, admin, executor); var p := v.policy;
      && v.weth == weth && v.call == Idle && !p.paused && p.executor == executor
      && p.admins == {admin} && p.pausers == {admin} && p.allowedToken == {}
      && (forall x :: x in p.executors <==> x == executor && executor != ZERO_ADDRESS)
      && (forall u, t :: BalanceOf(v, u, t) == 0) && (forall t :: Accounted(v, t) == 0 && Held(v, t) == 0)
      && (forall t :: Lookup(p.maxTradeAmount, t) == 0) && v.books.executedIds == {}
  {
  }
}
