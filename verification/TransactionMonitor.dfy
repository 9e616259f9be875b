/** Classification of a submitted transaction from what the node and the contract answer. */
module TransactionMonitor {
  import opened Wrappers
  import opened Orders

  datatype ReceiptAnswer =
    | ReceiptSuccess(blockNumber: nat, amountOut: Option<nat>)
    | ReceiptReverted(blockNumber: nat)
    | ReceiptNotFound
    | ReceiptError

  datatype MempoolAnswer = Visible | NotVisible | MempoolError

  datatype ContractAnswer = Consumed | Unconsumed | ContractError

  datatype Outcome =
    | SUCCESS(txHash: Hash, blockNumber: nat, amountOut: Option<nat>)
    | REVERTED(txHash: Hash, blockNumber: nat)
    | TX_PENDING(txHash: Hash, ageMs: int)
    | DROPPED_NOT_EXECUTED(txHash: Hash)
    | DROPPED_BUT_EXECUTED(txHash: Hash)
    | RPC_ERROR(txHash: Hash)

  predicate IsTerminal(o: Outcome) {
    o.SUCCESS? || o.REVERTED? || o.DROPPED_NOT_EXECUTED? || o.DROPPED_BUT_EXECUTED?
  }

  /** Polling goes on exactly until the outcome is terminal. */
  predicate ShouldKeepPolling(o: Outcome): (r: bool)
    ensures r <==> !IsTerminal(o)
  {
    o.TX_PENDING? || o.RPC_ERROR?
  }

  predicate IsSafeToResubmit(o: Outcome) { o.DROPPED_NOT_EXECUTED? }

  /**
   `now` is the clock when the missing receipt is investigated; the mempool and
   the contract are asked after that, and only if the answer is needed.
   */
  function GetOutcome(txHash: Hash, submittedAt: int, now: int, graceMs: int,
                      receipt: ReceiptAnswer, mempool: MempoolAnswer, contract: ContractAnswer): Outcome {
    match receipt
    case ReceiptSuccess(block, out) => SUCCESS(txHash, block, out)
    case ReceiptReverted(block) => REVERTED(txHash, block)
    case ReceiptError => RPC_ERROR(txHash)
    case ReceiptNotFound => InvestigateMissing(txHash, now - submittedAt, graceMs, mempool, contract)
  }

  function InvestigateMissing(txHash: Hash, ageMs: int, graceMs: int,
                              mempool: MempoolAnswer, contract: ContractAnswer): Outcome {
    match mempool
    case Visible => TX_PENDING(txHash, ageMs)
    case MempoolError => RPC_ERROR(txHash)
    case NotVisible =>
      if ageMs < graceMs then TX_PENDING(txHash, ageMs)
      else match contract
        case Consumed => DROPPED_BUT_EXECUTED(txHash)
        case Unconsumed => DROPPED_NOT_EXECUTED(txHash)
        case ContractError => RPC_ERROR(txHash)
  }

  /**
   Resubmission is declared safe exactly when every source was asked, none failed,
   and each said no: no receipt, not in the mempool, out of grace, id unconsumed.
   A failed read of any source never leads to a terminal outcome on its own.
   */
  lemma SafeToResubmitExactly(txHash: Hash, submittedAt: int, now: int, graceMs: int,
                              receipt: ReceiptAnswer, mempool: MempoolAnswer, contract: ContractAnswer)
    ensures var o := GetOutcome(txHash, submittedAt, now, graceMs, receipt, mempool, contract);
      && o.txHash == txHash
      && (IsSafeToResubmit(o) <==>
            receipt.ReceiptNotFound? && mempool.NotVisible? && now - submittedAt >= graceMs && contract.Unconsumed?)
      && (IsTerminal(o) ==> !receipt.ReceiptError?)
      && (IsTerminal(o) && receipt.ReceiptNotFound? ==> mempool.NotVisible? && !contract.ContractError?)
      && (o.DROPPED_BUT_EXECUTED? ==> contract.Consumed?)
      && (o.SUCCESS? <==> receipt.ReceiptSuccess?)
  {
  }

  /**
   Each outcome exactly. A receipt decides at any age; without one, the mempool and the
   grace period do, and only after both the contract; whatever fails to answer when it
   is asked leaves the outcome unknown.
   */
  lemma OutcomeExactly(txHash: Hash, submittedAt: int, now: int, graceMs: int, receipt: ReceiptAnswer,
                       mempool: MempoolAnswer, contract: ContractAnswer)
    ensures var o := GetOutcome(txHash, submittedAt, now, graceMs, receipt, mempool, contract);
      var gone := receipt.ReceiptNotFound? && mempool.NotVisible? && now - submittedAt >= graceMs;
      && (o.SUCCESS? <==> receipt.ReceiptSuccess?)
      && (o.SUCCESS? ==> o.blockNumber == receipt.blockNumber && o.amountOut == receipt.amountOut)
      && (o.REVERTED? <==> receipt.ReceiptReverted?)
      && (o.REVERTED? ==> o.blockNumber == receipt.blockNumber)
      && (o.TX_PENDING? <==>
            receipt.ReceiptNotFound? && (mempool.Visible? || (mempool.NotVisible? && now - submittedAt < graceMs)))
      && (o.TX_PENDING? ==> o.ageMs == now - submittedAt)
      && (o.DROPPED_BUT_EXECUTED? <==> gone && contract.Consumed?)
      && (o.DROPPED_NOT_EXECUTED? <==> gone && contract.Unconsumed?)
      && (o.RPC_ERROR? <==>
            || receipt.ReceiptError? || (receipt.ReceiptNotFound? && mempool.MempoolError?)
            || (gone && contract.ContractError?))
  {
  }

  /** What the monitor service writes for an outcome; nothing while it is not terminal. */
  function Resolution(o: Outcome, at: int): Option<Write> {
    match o
    case SUCCESS(hash, block, out) => Some(MarkConfirmed(hash, block, out, at))
    case REVERTED(hash, block) => Some(MarkFailed(Some(hash), Some(block), at))
    case DROPPED_BUT_EXECUTED(hash) => Some(MarkConfirmed(hash, 0, None, at))
    case DROPPED_NOT_EXECUTED(hash) => Some(MarkFailed(Some(hash), None, at))
    case TX_PENDING(_, _) => None
    case RPC_ERROR(_) => None
  }
}
