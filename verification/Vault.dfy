/**
 The vault contract as a small-step machine.

 One EVM transaction is a sequence of steps: an entry point runs up to its first
 external call, the token, router or WETH then act while control is theirs, and
 the entry point finishes when control comes back. `call` holds the Solidity
 locals that are live across the external call together with the state a revert
 restores.
 */
module Vault {
  import opened MapSums
  import opened Wrappers

  type Address = nat
  type Token = Address
  type ExecutionId = nat

  const ZERO_ADDRESS: Address := 0
  const ZERO_ID: ExecutionId := 0
  const MAX_UINT256: nat := 0xFFFF_FFFF_FFFF_FFFF_FFFF_FFFF_FFFF_FFFF_FFFF_FFFF_FFFF_FFFF_FFFF_FFFF_FFFF_FFFF

  datatype Event =
    | Deposited(user: Address, token: Token, amount: nat)
    | Withdrawn(user: Address, token: Token, amount: nat)
    | SwapExecuted(executionId: ExecutionId, owner: Address, executorAddress: Address, tokenIn: Token,
                   tokenOut: Token, amountIn: nat, amountOut: nat, minAmountOut: nat, poolFee: nat)
    | ExecutorUpdated(previous: Address, next: Address)
    | TokenAllowed(token: Token, maxTradeAmount: nat)
    | TokenRemoved(token: Token)
    | MaxTradeAmountUpdated(token: Token, previousAmount: nat, newAmount: nat)
    | UnaccountedSwept(token: Token, to: Address, amount: nat)
    | Paused(account: Address)
    | Unpaused(account: Address)

  datatype Error =
    | Unauthorized
    | EnforcedPause
    | ExpectedPause
    | ReentrantCall
    | ZeroAddress
    | ZeroAmount
    | TokenNotAllowed(token: Token)
    | IdenticalTokens
    | ExecutionAlreadyProcessed
    | InvalidExecutionId
    | TradeTooLarge(amountIn: nat, maxAmount: nat)
    | InsufficientBalance(available: nat, required: nat)
    | DeadlineExpired
    | SlippageExceeded(amountOut: nat, minAmountOut: nat)
    | NothingToSweep
    | EthTransferFailed
    | ExternalCallFailed
    | ArithmeticPanic

  /** The arguments of `executeSwap`. */
  datatype SwapArgs = SwapArgs(executionId: ExecutionId, owner: Address, tokenIn: Token, tokenOut: Token,
                               poolFee: nat, amountIn: nat, minAmountOut: nat, deadline: nat)

  /** What is on the EVM stack while control is inside an external call. */
  datatype Call =
    | Idle
    | Depositing(user: Address, token: Token, balanceBefore: nat, saved: State)
    | Wrapping(user: Address, value: nat, wrapped: bool, saved: State)
    | Withdrawing(user: Address, token: Token, amount: nat, native: bool, paid: bool, saved: State)
    | Swapping(sender: Address, args: SwapArgs, allowance: nat, delivered: nat, saved: State)

  /** What the vault owes, to whom, and the log that says so. */
  datatype Books = Books(
    balances: map<(Address, Token), nat>,
    totalAccounted: map<Token, nat>,
    executedIds: set<ExecutionId>,
    events: seq<Event>)
  {
    function BalanceOf(u: Address, t: Token): nat { Lookup(balances, (u, t)) }

    function Accounted(t: Token): nat { Lookup(totalAccounted, t) }

    function Emit(e: Event): Books { this.(events := events + [e]) }

    /** balances[u][t] += x; totalAccounted[t] += x, with Solidity 0.8 overflow checks. */
    function Credit(u: Address, t: Token, x: nat): Result<Books, Error> {
      if BalanceOf(u, t) + x > MAX_UINT256 || Accounted(t) + x > MAX_UINT256 then Failure(ArithmeticPanic)
      else Success(this.(balances := balances[(u, t) := BalanceOf(u, t) + x],
                         totalAccounted := totalAccounted[t := Accounted(t) + x]))
    }

    /** The balance check and the two subtractions shared by withdrawals and swaps. */
    function Debit(u: Address, t: Token, x: nat): Result<Books, Error> {
      if BalanceOf(u, t) < x then Failure(InsufficientBalance(BalanceOf(u, t), x))
      else if Accounted(t) < x then Failure(ArithmeticPanic)
      else Success(this.(balances := balances[(u, t) := BalanceOf(u, t) - x],
                         totalAccounted := totalAccounted[t := Accounted(t) - x]))
    }
  }

  /** What the admin and the pauser control. */
  datatype Policy = Policy(
    allowedToken: set<Token>,
    maxTradeAmount: map<Token, nat>,
    executor: Address,
    executors: set<Address>,
    admins: set<Address>,
    pausers: set<Address>,
    paused: bool)

  /** `held` is IERC20(token).balanceOf(vault), which the token contracts own. */
  datatype State = State(weth: Token, policy: Policy, books: Books, held: map<Token, nat>, call: Call)

  function BalanceOf(v: State, u: Address, t: Token): nat { v.books.BalanceOf(u, t) }

  function Accounted(v: State, t: Token): nat { v.books.Accounted(t) }

  function Held(v: State, t: Token): nat { Lookup(v.held, t) }

  function Init(weth: Token, admin: Address, executor: Address): State {
    var unset := executor == ZERO_ADDRESS;
    State(weth,
          Policy({}, map[], executor, if unset then {} else {executor}, {admin}, {admin}, false),
          Books(map[], map[], {}, if unset then [] else [ExecutorUpdated(ZERO_ADDRESS, executor)]),
          map[], Idle)
  }

  // ---- entry points, up to the first external call ------------------------

  function EnterDeposit(v: State, sender: Address, token: Token, amount: nat): Result<State, Error> {
    if v.policy.paused then Failure(EnforcedPause)
    else if v.call != Idle then Failure(ReentrantCall)
    else if token !in v.policy.allowedToken then Failure(TokenNotAllowed(token))
    else if amount == 0 then Failure(ZeroAmount)
    else Success(v.(call := Depositing(sender, token, Held(v, token), v)))
  }

  function EnterDepositETH(v: State, sender: Address, value: nat): Result<State, Error> {
    if v.policy.paused then Failure(EnforcedPause)
    else if v.call != Idle then Failure(ReentrantCall)
    else if value == 0 then Failure(ZeroAmount)
    else if v.weth !in v.policy.allowedToken then Failure(TokenNotAllowed(v.weth))
    else Success(v.(call := Wrapping(sender, value, false, v)))
  }

  function EnterWithdraw(v: State, sender: Address, token: Token, amount: nat, native: bool): Result<State, Error> {
    if v.call != Idle then Failure(ReentrantCall)
    else if amount == 0 then Failure(ZeroAmount)
    else match v.books.Debit(sender, token, amount)
      case Failure(e) => Failure(e)
      case Success(b) => Success(v.(books := b, call := Withdrawing(sender, token, amount, native, false, v)))
  }

  function EnterSwap(v: State, sender: Address, a: SwapArgs, timestamp: nat): Result<State, Error> {
    if sender !in v.policy.executors then Failure(Unauthorized)
    else if v.policy.paused then Failure(EnforcedPause)
    else if v.call != Idle then Failure(ReentrantCall)
    else if a.executionId == ZERO_ID then Failure(InvalidExecutionId)
    else if a.executionId in v.books.executedIds then Failure(ExecutionAlreadyProcessed)
    else if timestamp > a.deadline then Failure(DeadlineExpired)
    else if a.owner == ZERO_ADDRESS then Failure(ZeroAddress)
    else if a.tokenIn == a.tokenOut then Failure(IdenticalTokens)
    else if a.tokenIn !in v.policy.allowedToken then Failure(TokenNotAllowed(a.tokenIn))
    else if a.tokenOut !in v.policy.allowedToken then Failure(TokenNotAllowed(a.tokenOut))
    else if a.amountIn == 0 then Failure(ZeroAmount)
    else if a.amountIn > Lookup(v.policy.maxTradeAmount, a.tokenIn)
    then Failure(TradeTooLarge(a.amountIn, Lookup(v.policy.maxTradeAmount, a.tokenIn)))
    else match v.books.Debit(a.owner, a.tokenIn, a.amountIn)
      case Failure(e) => Failure(e)
      case Success(b) =>
        Success(v.(books := b.(executedIds := b.executedIds + {a.executionId}),
                   call := Swapping(sender, a, a.amountIn, 0, v)))
  }

  // ---- control comes back --------------------------------------------------

  function LeaveDeposit(v: State): Result<State, Error>
    requires v.call.Depositing?
  {
    var c := v.call;
    if Held(v, c.token) < c.balanceBefore then Failure(ArithmeticPanic)
    else
      var received := Held(v, c.token) - c.balanceBefore;
      if received == 0 then Failure(ZeroAmount)
      else Close(v, v.books.Credit(c.user, c.token, received), Deposited(c.user, c.token, received))
  }

  function LeaveDepositETH(v: State): Result<State, Error>
    requires v.call.Wrapping?
  {
    Close(v, v.books.Credit(v.call.user, v.weth, v.call.value), Deposited(v.call.user, v.weth, v.call.value))
  }

  function LeaveWithdraw(v: State, ethSent: bool): Result<State, Error>
    requires v.call.Withdrawing?
  {
    if v.call.native && !ethSent then Failure(EthTransferFailed)
    else Close(v, Success(v.books), Withdrawn(v.call.user, v.call.token, v.call.amount))
  }

  function LeaveSwap(v: State, amountOut: nat): Result<State, Error>
    requires v.call.Swapping?
  {
    var a := v.call.args;
    if amountOut < a.minAmountOut then Failure(SlippageExceeded(amountOut, a.minAmountOut))
    else Close(v, v.books.Credit(a.owner, a.tokenOut, amountOut), SwapEvent(v.call.sender, a, amountOut))
  }

  /** Return with the new books and the event emitted, or with the error that reverts. */
  function Close(v: State, books: Result<Books, Error>, e: Event): Result<State, Error> {
    match books
    case Failure(error) => Failure(error)
    case Success(b) => Success(v.(books := b.Emit(e), call := Idle))
  }

  function SwapEvent(sender: Address, a: SwapArgs, amountOut: nat): Event {
    SwapExecuted(a.executionId, a.owner, sender, a.tokenIn, a.tokenOut, a.amountIn, amountOut,
                 a.minAmountOut, a.poolFee)
  }

  // ---- administration ------------------------------------------------------

  function WithPolicy(v: State, policy: Policy, e: Event): Result<State, Error> {
    Success(v.(policy := policy, books := v.books.Emit(e)))
  }

  function SetExecutor(v: State, sender: Address, next: Address): Result<State, Error> {
    var p := v.policy;
    if sender !in p.admins then Failure(Unauthorized)
    else if p.executor == next then Success(v)
    else
      var revoked := if p.executor != ZERO_ADDRESS then p.executors - {p.executor} else p.executors;
      var granted := if next != ZERO_ADDRESS then revoked + {next} else revoked;
      WithPolicy(v, p.(executor := next, executors := granted), ExecutorUpdated(p.executor, next))
  }

  function SetTokenAllowed(v: State, sender: Address, token: Token, maxAmount: nat): Result<State, Error> {
    var p := v.policy;
    if sender !in p.admins then Failure(Unauthorized)
    else if token == ZERO_ADDRESS then Failure(ZeroAddress)
    else if maxAmount == 0 then Failure(ZeroAmount)
    else WithPolicy(v, p.(allowedToken := p.allowedToken + {token},
                          maxTradeAmount := p.maxTradeAmount[token := maxAmount]),
                    TokenAllowed(token, maxAmount))
  }

  function RemoveToken(v: State, sender: Address, token: Token): Result<State, Error> {
    var p := v.policy;
    if sender !in p.admins then Failure(Unauthorized)
    else if token !in p.allowedToken then Failure(TokenNotAllowed(token))
    else WithPolicy(v, p.(allowedToken := p.allowedToken - {token}, maxTradeAmount := p.maxTradeAmount[token := 0]),
                    TokenRemoved(token))
  }

  function SetMaxTradeAmount(v: State, sender: Address, token: Token, amount: nat): Result<State, Error> {
    var p := v.policy;
    if sender !in p.admins then Failure(Unauthorized)
    else if token !in p.allowedToken then Failure(TokenNotAllowed(token))
    else if amount == 0 then Failure(ZeroAmount)
    else WithPolicy(v, p.(maxTradeAmount := p.maxTradeAmount[token := amount]),
                    MaxTradeAmountUpdated(token, Lookup(p.maxTradeAmount, token), amount))
  }

  function Pause(v: State, sender: Address): Result<State, Error> {
    if sender !in v.policy.pausers then Failure(Unauthorized)
    else if v.policy.paused then Failure(EnforcedPause)
    else WithPolicy(v, v.policy.(paused := true), Paused(sender))
  }

  function Unpause(v: State, sender: Address): Result<State, Error> {
    if sender !in v.policy.admins then Failure(Unauthorized)
    else if !v.policy.paused then Failure(ExpectedPause)
    else WithPolicy(v, v.policy.(paused := false), Unpaused(sender))
  }

  function UnaccountedBalance(v: State, token: Token): (r: nat)
    ensures Held(v, token) >= Accounted(v, token) ==> Held(v, token) == Accounted(v, token) + r
    ensures r > 0 ==> Held(v, token) == Accounted(v, token) + r
  {
    if Held(v, token) > Accounted(v, token) then Held(v, token) - Accounted(v, token) else 0
  }

  function SweepUnaccounted(v: State, sender: Address, token: Token, to: Address): Result<State, Error> {
    if sender !in v.policy.admins then Failure(Unauthorized)
    else if to == ZERO_ADDRESS then Failure(ZeroAddress)
    else
      var amount := UnaccountedBalance(v, token);
      if amount == 0 then Failure(NothingToSweep)
      else Success(Move(v, token, amount).(books := v.books.Emit(UnaccountedSwept(token, to, amount))))
  }

  // ---- the machine ---------------------------------------------------------

  datatype Action =
    | Deposit(sender: Address, token: Token, amount: nat)
    | DepositETH(sender: Address, value: nat)
    | Withdraw(sender: Address, token: Token, amount: nat)
    | WithdrawETH(sender: Address, amount: nat)
    | ExecuteSwap(sender: Address, args: SwapArgs, timestamp: nat)
    // what other contracts do; allowed at any point, inside a call or between calls
    | TokenArrives(token: Token, amount: nat)
    // what the called contract does while control is inside an external call
    | WethWraps
    | TokenPays
    | RouterPulls(amount: nat)
    | RouterDelivers(amount: nat)
    // control comes back to the vault
    | DepositReturns
    | DepositETHReturns
    | WithdrawReturns(ethSent: bool)
    | SwapReturns(amountOut: nat)
    | CallReverts
    // administration
    | AdminSetExecutor(sender: Address, next: Address)
    | AdminSetTokenAllowed(sender: Address, token: Token, maxAmount: nat)
    | AdminRemoveToken(sender: Address, token: Token)
    | AdminSetMaxTradeAmount(sender: Address, token: Token, amount: nat)
    | AdminPause(sender: Address)
    | AdminUnpause(sender: Address)
    | AdminSweep(sender: Address, token: Token, to: Address)

  /** A failed entry or admin call leaves the state alone. */
  function OrSame(v: State, r: Result<State, Error>): State {
    match r
    case Success(d) => d
    case Failure(_) => v
  }

  /** A failure after an external call reverts the whole transaction. */
  function OrRevert(v: State, r: Result<State, Error>): State
    requires v.call != Idle
  {
    match r
    case Success(d) => d
    case Failure(_) => v.call.saved
  }

  function Move(v: State, token: Token, amount: nat): State
    requires amount <= Held(v, token)
  {
    v.(held := v.held[token := Held(v, token) - amount])
  }

  function Arrive(v: State, token: Token, amount: nat): State {
    v.(held := v.held[token := Held(v, token) + amount])
  }

  /**
   One step. An action that the environment assumptions rule out changes nothing:
   WETH wraps a deposit once, a token pays a withdrawal once, the router pulls no
   more than its allowance and returns no more than it delivered, and nobody
   sweeps while another call of the vault is on the stack. The other admin
   functions are allowed at every point.
   */
  function Step(v: State, a: Action): State {
    match a
    case Deposit(sender, token, amount) => OrSame(v, EnterDeposit(v, sender, token, amount))
    case DepositETH(sender, value) => OrSame(v, EnterDepositETH(v, sender, value))
    case Withdraw(sender, token, amount) => OrSame(v, EnterWithdraw(v, sender, token, amount, false))
    case WithdrawETH(sender, amount) => OrSame(v, EnterWithdraw(v, sender, v.weth, amount, true))
    case ExecuteSwap(sender, args, timestamp) => OrSame(v, EnterSwap(v, sender, args, timestamp))
    case TokenArrives(token, amount) => Arrive(v, token, amount)
    case WethWraps =>
      if v.call.Wrapping? && !v.call.wrapped
      then Arrive(v, v.weth, v.call.value).(call := v.call.(wrapped := true)) else v
    case TokenPays =>
      if v.call.Withdrawing? && !v.call.paid && v.call.amount <= Held(v, v.call.token)
      then Move(v, v.call.token, v.call.amount).(call := v.call.(paid := true)) else v
    case RouterPulls(amount) =>
      if v.call.Swapping? && amount <= v.call.allowance && amount <= Held(v, v.call.args.tokenIn)
      then Move(v, v.call.args.tokenIn, amount).(call := v.call.(allowance := v.call.allowance - amount)) else v
    case RouterDelivers(amount) =>
      if v.call.Swapping?
      then Arrive(v, v.call.args.tokenOut, amount).(call := v.call.(delivered := v.call.delivered + amount)) else v
    case DepositReturns => if v.call.Depositing? then OrRevert(v, LeaveDeposit(v)) else v
    case DepositETHReturns => if v.call.Wrapping? && v.call.wrapped then OrRevert(v, LeaveDepositETH(v)) else v
    case WithdrawReturns(ethSent) =>
      if v.call.Withdrawing? && v.call.paid then OrRevert(v, LeaveWithdraw(v, ethSent)) else v
    case SwapReturns(amountOut) =>
      if v.call.Swapping? && amountOut <= v.call.delivered then OrRevert(v, LeaveSwap(v, amountOut)) else v
    case CallReverts => if v.call != Idle then v.call.saved else v
    case AdminSetExecutor(sender, next) => OrSame(v, SetExecutor(v, sender, next))
    case AdminSetTokenAllowed(sender, token, maxAmount) => OrSame(v, SetTokenAllowed(v, sender, token, maxAmount))
    case AdminRemoveToken(sender, token) => OrSame(v, RemoveToken(v, sender, token))
    case AdminSetMaxTradeAmount(sender, token, amount) => OrSame(v, SetMaxTradeAmount(v, sender, token, amount))
    case AdminPause(sender) => OrSame(v, Pause(v, sender))
    case AdminUnpause(sender) => OrSame(v, Unpause(v, sender))
    case AdminSweep(sender, token, to) =>
      if v.call == Idle then OrSame(v, SweepUnaccounted(v, sender, token, to)) else v
  }

  /** A whole run: any actors, any order. */
  function Run(v: State, actions: seq<Action>): State
    decreases |actions|
  {
    if |actions| == 0 then v else Run(Step(v, actions[0]), actions[1..])
  }
}
