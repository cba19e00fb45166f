/** The executor: readiness checks, reward and deadline arithmetic, and the guarded
    updates that record what became of an order. Chain calls are oracles. */
module Executor {
  import opened Options
  import opened Orders
  import opened Database

  /** txDeadline and retryInterval in seconds. */
  datatype Config = Config(txDeadline: nat, retryInterval: nat)

  // ---------------------------------------------------------------- payload

  function ParseNonNegative(v: Numeral): Option<nat> {
    if v.Number? && v.n >= 0 then Some(v.n) else None
  }

  function ParsePositive(v: Numeral): Option<nat> {
    if v.Number? && v.n > 0 then Some(v.n) else None
  }

  datatype SettlementOrder = SettlementOrder(
    amountIn: nat, minAmountOut: nat, rewardBps: nat, triggerPrice: nat, expiry: nat, nonce: nat)

  /** The order tuple for the contract, or nothing when a field does not parse. */
  function BuildSettlementOrder(d: Definition): Option<SettlementOrder> {
    if !(d.makerIsAddress && d.inputTokenIsAddress && d.outputTokenIsAddress && d.recipientIsAddress) then None
    else
      match (ParsePositive(d.amountIn), ParsePositive(d.minAmountOut), ParseNonNegative(d.executorFee),
             ParsePositive(d.triggerPrice), ParsePositive(d.expiry), ParseNonNegative(d.nonce))
      case (Some(amountIn), Some(minOut), Some(bps), Some(price), Some(expiry), Some(nonce)) =>
        if bps > 10_000 then None else Some(SettlementOrder(amountIn, minOut, bps, price, expiry, nonce))
      case _ => None
  }

  /** A column that holds a number in a range. */
  predicate Holds(v: Numeral, low: int) {
    v.Number? && v.n >= low
  }

  /** What the maker signed can be read. */
  predicate Readable(d: Definition) {
    && d.makerIsAddress && d.inputTokenIsAddress && d.outputTokenIsAddress && d.recipientIsAddress
    && Holds(d.amountIn, 1) && Holds(d.minAmountOut, 1) && Holds(d.executorFee, 0) && d.executorFee.n <= 10_000
    && Holds(d.triggerPrice, 1) && Holds(d.expiry, 1) && Holds(d.nonce, 0)
  }

  /** There is a payload exactly when all four addresses and six numbers are valid, and each
      of its fields is the number in its own column. */
  lemma PayloadExactly(d: Definition)
    ensures BuildSettlementOrder(d).Some? <==> Readable(d)
    ensures BuildSettlementOrder(d).Some? ==>
      var p := BuildSettlementOrder(d).value;
      && p.amountIn == d.amountIn.n && p.minAmountOut == d.minAmountOut.n && p.rewardBps == d.executorFee.n
      && p.triggerPrice == d.triggerPrice.n && p.expiry == d.expiry.n && p.nonce == d.nonce.n
  {}

  function MaxExecutorReward(p: SettlementOrder, quote: int): nat {
    if quote <= p.minAmountOut || p.rewardBps == 0 then 0
    else (quote - p.minAmountOut) * p.rewardBps / 10_000
  }

  function BuildDeadline(d: Definition, chainTime: nat, txDeadline: nat): Option<nat> {
    match ParsePositive(d.expiry)
    case None => None
    case Some(expiry) =>
      if chainTime == 0 then None
      else
        var deadline := if expiry < chainTime + txDeadline then expiry else chainTime + txDeadline;
        if deadline <= chainTime then None else Some(deadline)
  }

  // ---------------------------------------------------------------- cooldown

  predicate ProtocolBlocked(statusReason: Reason, lastBlockReason: Reason) {
    var first := if statusReason != NoReason then statusReason else lastBlockReason;
    first == Paused || first == ExecutorNotSet
  }

  predicate DelaysRecheck(o: Order, now: nat, retryInterval: nat) {
    && retryInterval > 0
    && ProtocolBlocked(o.statusReason, o.lastBlockReason)
    && o.lastExecutionCheckAt != 0
    && now < o.lastExecutionCheckAt + retryInterval
  }

  // ---------------------------------------------------------------- readiness

  /** Why the contract says an order cannot execute. */
  datatype Blocker = Unsaid | SaysExpired | SaysPaused | SaysExecutorNotSet | Says(text: string)

  function BlockerReason(b: Blocker): Reason {
    match b
    case Unsaid => NoReason
    case SaysExpired => OrderExpired
    case SaysPaused => Paused
    case SaysExecutorNotSet => ExecutorNotSet
    case Says(text) => Noted(ContractSays(text))
  }

  datatype Readiness = Executable | AlreadyExecuted | NonceUsed | Blocked(blocker: Blocker)

  datatype Funding = Funding(enoughBalance: bool, enoughAllowance: bool)

  datatype Answers = Answers(
    blockTime: Answer<nat>, executed: Answer<bool>, invalidated: Answer<bool>,
    readiness: Answer<Readiness>, funding: Answer<Funding>, quote: Answer<int>, fee: Answer<nat>,
    execute: Answer<TxHash>)

  function ReopenedFor(reason: Reason, now: nat): Patch {
    Patch(status := Some(Open), statusReason := Some(reason), lastBlockReason := Some(reason),
      lastExecutionCheckAt := Some(now))
  }

  function ClosedExecuted(now: nat): Patch {
    Patch(status := Some(Executed), statusReason := Some(ConfirmedByChainState), lastBlockReason := Some(NoReason),
      submittedTx := Some(NO_TX), cancelledTx := Some(NO_TX), lastExecutionCheckAt := Some(now))
  }

  function ClosedCancelled(now: nat): Patch {
    Patch(status := Some(Cancelled), statusReason := Some(ConfirmedByChainState), lastBlockReason := Some(NoReason),
      submittedTx := Some(NO_TX), executedTx := Some(NO_TX), lastExecutionCheckAt := Some(now))
  }

  function ClosedExpired(now: nat): Patch {
    Patch(status := Some(Expired), statusReason := Some(ExpiredByChainTime), lastBlockReason := Some(OrderExpired),
      lastExecutionCheckAt := Some(now))
  }

  /** Whether the chain already holds the order executed, or its nonce used. */
  function ExecutedCheck(executed: Answer<bool>, otherwise: Patch, now: nat): Patch {
    match executed
    case Failed => ReopenedFor(Noted(ChainStateCheckFailed), now)
    case Answered(yes) => if yes then ClosedExecuted(now) else otherwise
  }

  function InvalidatedCheck(invalidated: Answer<bool>, otherwise: Patch, now: nat): Patch {
    match invalidated
    case Failed => ReopenedFor(Noted(ChainStateCheckFailed), now)
    case Answered(yes) => if yes then ClosedCancelled(now) else otherwise
  }

  /** What evaluation comes to: a column update, or a transaction to send. */
  datatype Verdict = Record(patch: Patch) | Submit(reward: nat, deadline: nat)

  function Judge(d: Definition, p: SettlementOrder, cfg: Config, a: Answers, now: nat): Verdict {
    match a.blockTime
    case Failed => Record(ReopenedFor(Noted(ChainTimeUnavailable), now))
    case Answered(time) =>
      if p.expiry <= time then
        Record(ExecutedCheck(a.executed, InvalidatedCheck(a.invalidated, ClosedExpired(now), now), now))
      else
        match a.readiness
        case Failed => Record(ReopenedFor(Noted(CanExecuteFailed), now))
        case Answered(Executable) => JudgeExecutable(d, p, cfg, a, time, now)
        case Answered(AlreadyExecuted) =>
          Record(ExecutedCheck(a.executed, ReopenedFor(Noted(ExecutedInconclusive), now), now))
        case Answered(NonceUsed) =>
          Record(InvalidatedCheck(a.invalidated, ReopenedFor(Noted(InvalidatedInconclusive), now), now))
        case Answered(Blocked(b)) => Record(ReopenedFor(BlockerReason(b), now))
  }

  function JudgeExecutable(d: Definition, p: SettlementOrder, cfg: Config, a: Answers, time: nat, now: nat): Verdict {
    match a.funding
    case Failed => Record(ReopenedFor(Noted(FundingCheckFailed), now))
    case Answered(funding) =>
      if !funding.enoughBalance then
        Record(ReopenedFor(Noted(InsufficientBalance), now))
      else if !funding.enoughAllowance then
        Record(ReopenedFor(Noted(InsufficientAllowance), now))
      else
        match a.quote
        case Failed => Record(ReopenedFor(Noted(OrderQuoteFailed), now))
        case Answered(quote) =>
          match a.fee
          case Failed => Record(ReopenedFor(Noted(FeeQuoteFailed), now))
          case Answered(fee) =>
            if MaxExecutorReward(p, quote) < fee then
              Record(ReopenedFor(Noted(RewardInsufficient), now))
            else if !d.signatureDecodes then Record(ReopenedFor(Noted(InvalidSignature), now))
            else
              match BuildDeadline(d, time, cfg.txDeadline)
              case None => Record(ReopenedFor(Noted(DeadlineInvalid), now))
              case Some(deadline) => Submit(fee, deadline)
  }

  function SubmittedPatch(execute: Answer<TxHash>, now: nat): Patch {
    match execute
    case Failed => ReopenedFor(Noted(SubmitFailed), now)
    case Answered(tx) =>
      Patch(status := Some(PendingExecute), statusReason := Some(SubmittedToChain), lastBlockReason := Some(NoReason),
        submittedTx := Some(tx), lastExecutionCheckAt := Some(now))
  }

  /** The update that ends an evaluation. */
  function ClosingPatch(v: Verdict, execute: Answer<TxHash>, now: nat): Patch {
    match v
    case Record(patch) => patch
    case Submit(_, _) => SubmittedPatch(execute, now)
  }

  /** The reward bound, stated on exact products instead of the rounded quotient. */
  lemma RewardFitsExactly(p: SettlementOrder, quote: int, fee: nat)
    requires p.rewardBps <= 10_000
    ensures fee <= MaxExecutorReward(p, quote) <==>
      (if quote <= p.minAmountOut then fee == 0 else fee * 10_000 <= (quote - p.minAmountOut) * p.rewardBps)
    ensures fee <= MaxExecutorReward(p, quote) && quote > p.minAmountOut ==> quote - fee >= p.minAmountOut
  {
    if quote > p.minAmountOut {
      var surplus := quote - p.minAmountOut;
      assert surplus * p.rewardBps <= surplus * 10_000;
      if p.rewardBps == 0 { assert surplus * p.rewardBps == 0; }
    }
  }

  /** What a submission owes the maker: it leaves the signed minimum alone, pays no more than
      the signed share of the surplus, and expires with the order at the latest. */
  predicate KeepsSigned(d: Definition, cfg: Config, a: Answers, v: Verdict) {
    && Readable(d) && v.Submit? && a.blockTime.Answered? && a.quote.Answered?
    && ((a.quote.value <= d.minAmountOut.n && v.reward == 0)
        || (&& v.reward * 10_000 <= (a.quote.value - d.minAmountOut.n) * d.executorFee.n
            && a.quote.value - v.reward >= d.minAmountOut.n))
    && a.blockTime.value < v.deadline <= d.expiry.n && v.deadline <= a.blockTime.value + cfg.txDeadline
  }

  lemma SubmissionIsSafe(d: Definition, p: SettlementOrder, cfg: Config, a: Answers, now: nat)
    requires BuildSettlementOrder(d) == Some(p) && Judge(d, p, cfg, a, now).Submit?
    ensures KeepsSigned(d, cfg, a, Judge(d, p, cfg, a, now))
  {
    PayloadExactly(d);
    RewardFitsExactly(p, a.quote.value, a.fee.value);
  }

  /** Exactly when a transaction is sent: the order is live and executable, its maker can
      pay, the fee fits the signed share, the signature decodes and there is time left. The
      reward is then the fee, and the deadline the latest one allowed. */
  lemma SubmittedExactly(d: Definition, p: SettlementOrder, cfg: Config, a: Answers, now: nat)
    requires BuildSettlementOrder(d) == Some(p)
    ensures Readable(d)
    ensures Judge(d, p, cfg, a, now).Submit? <==>
      && a.blockTime.Answered? && 0 < a.blockTime.value < d.expiry.n && cfg.txDeadline > 0
      && a.readiness == Answered(Executable) && a.funding == Answered(Funding(true, true))
      && a.quote.Answered? && a.fee.Answered? && d.signatureDecodes
      && (if a.quote.value <= d.minAmountOut.n then a.fee.value == 0
          else a.fee.value * 10_000 <= (a.quote.value - d.minAmountOut.n) * d.executorFee.n)
    ensures Judge(d, p, cfg, a, now).Submit? ==>
      var v, limit := Judge(d, p, cfg, a, now), a.blockTime.value + cfg.txDeadline;
      && a.fee == Answered(v.reward)
      && v.deadline <= d.expiry.n && v.deadline <= limit && (v.deadline == d.expiry.n || v.deadline == limit)
  {
    PayloadExactly(d);
    if a.quote.Answered? && a.fee.Answered? { RewardFitsExactly(p, a.quote.value, a.fee.value); }
  }

  lemma BlockedExecutableReopens(d: Definition, p: SettlementOrder, cfg: Config, a: Answers, time: nat, now: nat)
    ensures var v := JudgeExecutable(d, p, cfg, a, time, now);
      v.Record? ==> v.patch.status == Some(Open) && v.patch.lastExecutionCheckAt == Some(now)
  {}

  /** Exactly when an evaluation closes its order, and as what. */
  lemma ClosedExactly(d: Definition, p: SettlementOrder, cfg: Config, a: Answers, now: nat)
    ensures var v, status := Judge(d, p, cfg, a, now), ClosingPatch(Judge(d, p, cfg, a, now), a.execute, now).status;
      var lapsed := a.blockTime.Answered? && p.expiry <= a.blockTime.value;
      var running := a.blockTime.Answered? && p.expiry > a.blockTime.value;
      && (status == Some(Executed) <==>
            a.executed == Answered(true) && (lapsed || (running && a.readiness == Answered(AlreadyExecuted))))
      && (status == Some(Cancelled) <==>
            && a.invalidated == Answered(true)
            && ((lapsed && a.executed == Answered(false)) || (running && a.readiness == Answered(NonceUsed))))
      && (status == Some(Expired) <==> lapsed && a.executed == Answered(false) && a.invalidated == Answered(false))
      && (status == Some(PendingExecute) <==> v.Submit? && a.execute.Answered?)
  {
    if a.blockTime.Answered? && p.expiry > a.blockTime.value && a.readiness == Answered(Executable) {
      BlockedExecutableReopens(d, p, cfg, a, a.blockTime.value, now);
    }
  }

  /** Every column of a row whose evaluation is over. */
  lemma EvaluatedColumns(o: Order, d: Definition, p: SettlementOrder, cfg: Config, a: Answers, now: nat)
    ensures var r := Override(o, ClosingPatch(Judge(d, p, cfg, a, now), a.execute, now));
      r == match r.status
           case Executed => o.(status := Executed, statusReason := ConfirmedByChainState, lastBlockReason := NoReason,
                               submittedTx := NO_TX, cancelledTx := NO_TX, lastExecutionCheckAt := now)
           case Cancelled => o.(status := Cancelled, statusReason := ConfirmedByChainState, lastBlockReason := NoReason,
                                submittedTx := NO_TX, executedTx := NO_TX, lastExecutionCheckAt := now)
           case Expired => o.(status := Expired, statusReason := ExpiredByChainTime, lastBlockReason := OrderExpired,
                              lastExecutionCheckAt := now)
           case PendingExecute => o.(status := PendingExecute, statusReason := SubmittedToChain, lastBlockReason := NoReason,
                                     submittedTx := a.execute.GetOr(NO_TX), lastExecutionCheckAt := now)
           case _ => o.(status := Open, statusReason := r.statusReason, lastBlockReason := r.statusReason,
                        lastExecutionCheckAt := now)
  {
    if a.blockTime.Answered? && p.expiry > a.blockTime.value && a.readiness == Answered(Executable) {
      BlockedExecutableColumns(d, p, cfg, a, a.blockTime.value, now);
    }
  }

  lemma BlockedExecutableColumns(d: Definition, p: SettlementOrder, cfg: Config, a: Answers, time: nat, now: nat)
    ensures var v := JudgeExecutable(d, p, cfg, a, time, now);
      v.Record? ==> v.patch.statusReason.Some? && v.patch == ReopenedFor(v.patch.statusReason.value, now)
  {}

  /** The reason that a reopened order gives is the first thing that stood in its way. */
  lemma ReasonIsFirstObstacle(d: Definition, p: SettlementOrder, cfg: Config, a: Answers, now: nat)
    ensures var r := ClosingPatch(Judge(d, p, cfg, a, now), a.execute, now).statusReason;
      var lapsed := a.blockTime.Answered? && p.expiry <= a.blockTime.value;
      var running := a.blockTime.Answered? && p.expiry > a.blockTime.value;
      var ready := running && a.readiness == Answered(Executable);
      var funded := ready && a.funding == Answered(Funding(true, true));
      var quoted := funded && a.quote.Answered? && a.fee.Answered?;
      var paid := quoted && a.fee.value <= MaxExecutorReward(p, a.quote.value);
      && (r == Some(Noted(ChainTimeUnavailable)) <==> a.blockTime.Failed?)
      && (r == Some(Noted(ChainStateCheckFailed)) <==>
            || (lapsed && (a.executed.Failed? || (a.executed == Answered(false) && a.invalidated.Failed?)))
            || (running && a.readiness == Answered(AlreadyExecuted) && a.executed.Failed?)
            || (running && a.readiness == Answered(NonceUsed) && a.invalidated.Failed?))
      && (r == Some(Noted(CanExecuteFailed)) <==> running && a.readiness.Failed?)
      && (r == Some(Noted(ExecutedInconclusive)) <==>
            running && a.readiness == Answered(AlreadyExecuted) && a.executed == Answered(false))
      && (r == Some(Noted(InvalidatedInconclusive)) <==>
            running && a.readiness == Answered(NonceUsed) && a.invalidated == Answered(false))
      && (r == Some(OrderExpired) <==> running && a.readiness == Answered(Blocked(SaysExpired)))
      && (r == Some(Paused) <==> running && a.readiness == Answered(Blocked(SaysPaused)))
      && (r == Some(ExecutorNotSet) <==> running && a.readiness == Answered(Blocked(SaysExecutorNotSet)))
      && (r == Some(NoReason) <==> running && a.readiness == Answered(Blocked(Unsaid)))
      && (forall text :: r == Some(Noted(ContractSays(text))) <==> running && a.readiness == Answered(Blocked(Says(text))))
      && (r == Some(Noted(FundingCheckFailed)) <==> ready && a.funding.Failed?)
      && (r == Some(Noted(InsufficientBalance)) <==> ready && a.funding.Answered? && !a.funding.value.enoughBalance)
      && (r == Some(Noted(InsufficientAllowance)) <==> ready && a.funding == Answered(Funding(true, false)))
      && (r == Some(Noted(OrderQuoteFailed)) <==> funded && a.quote.Failed?)
      && (r == Some(Noted(FeeQuoteFailed)) <==> funded && a.quote.Answered? && a.fee.Failed?)
      && (r == Some(Noted(RewardInsufficient)) <==> quoted && !paid)
      && (r == Some(Noted(InvalidSignature)) <==> paid && !d.signatureDecodes)
      && (r == Some(Noted(DeadlineInvalid)) <==>
            paid && d.signatureDecodes && BuildDeadline(d, a.blockTime.value, cfg.txDeadline).None?)
      && (r == Some(Noted(SubmitFailed)) <==> Judge(d, p, cfg, a, now).Submit? && a.execute.Failed?)
  {}

  /** Exactly when a checked order's next check is put off: the contract said that it is
      paused, or has no executor, and the retry interval has not passed. */
  lemma DelayedExactly(o: Order, d: Definition, p: SettlementOrder, cfg: Config, a: Answers, now: nat, next: nat)
    ensures var r := Override(o, ClosingPatch(Judge(d, p, cfg, a, now), a.execute, now));
      DelaysRecheck(r, next, cfg.retryInterval) <==>
        && a.blockTime.Answered? && p.expiry > a.blockTime.value
        && (a.readiness == Answered(Blocked(SaysPaused)) || a.readiness == Answered(Blocked(SaysExecutorNotSet)))
        && 0 < now && next < now + cfg.retryInterval && cfg.retryInterval > 0
  {
    ReasonIsFirstObstacle(d, p, cfg, a, now);
    EvaluatedColumns(o, d, p, cfg, a, now);
  }

  // ---------------------------------------------------------------- receipts

  datatype ReceiptAnswer = ReceiptUnavailable | NoReceipt | Receipt(success: bool, block: nat)

  datatype Settled = Settled(gross: nat, fee: nat)

  datatype PendingAnswers = PendingAnswers(
    receipt: ReceiptAnswer, known: Answer<bool>, executed: Answer<bool>, invalidated: Answer<bool>,
    blockTime: Answer<nat>, settled: Option<Settled>)

  function ReopenedCancel(note: Note, block: Option<nat>): Patch {
    Patch(status := Some(Open), statusReason := Some(Noted(note)), lastBlockReason := Some(Noted(note)),
      cancelledTx := Some(NO_TX), lastCheckedBlock := block)
  }

  function ReopenedExecute(note: Note, block: Option<nat>): Patch {
    Patch(status := Some(Open), statusReason := Some(Noted(note)), lastBlockReason := Some(Noted(note)),
      submittedTx := Some(NO_TX), lastCheckedBlock := block)
  }

  function CancelConfirmed(reason: Reason, block: Option<nat>): Patch {
    Patch(status := Some(Cancelled), statusReason := Some(reason), lastBlockReason := Some(NoReason),
      submittedTx := Some(NO_TX), executedTx := Some(NO_TX), lastCheckedBlock := block)
  }

  /** What becomes of an order whose cancel transaction is being tracked. */
  function CancelReceiptPatch(d: Definition, a: PendingAnswers): Option<Patch> {
    match a.receipt
    case ReceiptUnavailable => None
    case NoReceipt =>
      if a.known.Failed? then None
      else if a.known.value then
        Some(Patch(statusReason := Some(Noted(CancelTxPendingOnChain)),
                   lastBlockReason := Some(Noted(CancelTxPendingOnChain))))
      else if ParseNonNegative(d.nonce).None? then Some(ReopenedCancel(InvalidNonceInRecord, None))
      else if a.invalidated.Failed? then None
      else if a.invalidated.value then Some(CancelConfirmed(ConfirmedByChainState, None))
      else Some(ReopenedCancel(CancelTxMissing, None))
    case Receipt(true, block) =>
      if ParseNonNegative(d.nonce).None? then
        Some(CancelConfirmed(Noted(ConfirmedWithInvalidNonce), Some(block)))
      else if a.invalidated.Failed? then None
      else if a.invalidated.value then Some(CancelConfirmed(ConfirmedByChainState, Some(block)))
      else
        Some(Patch(status := Some(PendingCancel), statusReason := Some(Noted(CancelWaitingForIndexer)),
                   lastBlockReason := Some(NoReason), lastCheckedBlock := Some(block)))
    case Receipt(false, block) =>
      if ParseNonNegative(d.nonce).None? then Some(ReopenedCancel(InvalidNonceInRecord, Some(block)))
      else if a.invalidated.Answered? && a.invalidated.value then Some(CancelConfirmed(ConfirmedByChainState, Some(block)))
      else Some(ReopenedCancel(CancelTxReverted, Some(block)))
  }

  /** What becomes of an order whose execute transaction `tx` is being tracked. */
  function ExecuteReceiptPatch(d: Definition, tx: TxHash, a: PendingAnswers): Option<Patch> {
    match a.receipt
    case ReceiptUnavailable => None
    case NoReceipt =>
      if a.known.Failed? then None
      else if a.known.value then
        Some(Patch(statusReason := Some(Noted(TxPendingOnChain)), lastBlockReason := Some(Noted(TxPendingOnChain))))
      else Some(ReopenedExecute(SubmittedTxMissing, None))
    case Receipt(true, block) =>
      if a.executed.Failed? then None
      else if a.executed.value then
        Some(Patch(status := Some(Executed), statusReason := Some(ConfirmedByChainState), lastBlockReason := Some(NoReason),
                   submittedTx := Some(NO_TX), cancelledTx := Some(NO_TX), executedTx := Some(tx),
                   lastCheckedBlock := Some(block),
                   settledAmountOut := if a.settled.Some? then Some(a.settled.value.gross) else None,
                   settledExecutorFee := if a.settled.Some? then Some(a.settled.value.fee) else None))
      else
        Some(Patch(status := Some(PendingExecute), statusReason := Some(Noted(TxWaitingForIndexer)),
                   lastBlockReason := Some(NoReason), lastCheckedBlock := Some(block)))
    case Receipt(false, block) =>
      if a.blockTime.Answered? && ParsePositive(d.expiry).None? then
        Some(ReopenedExecute(InvalidExpiryInRecord, Some(block)))
      else if a.blockTime.Answered? && ParsePositive(d.expiry).value <= a.blockTime.value then
        Some(Patch(status := Some(Expired), statusReason := Some(Noted(ExpiredAfterRevert)),
                   lastBlockReason := Some(OrderExpired), submittedTx := Some(NO_TX), lastCheckedBlock := Some(block)))
      else Some(ReopenedExecute(TxReverted, Some(block)))
  }

  const INTERRUPTED := Patch(status := Some(Open), statusReason := Some(Noted(SubmissionInterrupted)),
    lastBlockReason := Some(Noted(SubmissionInterrupted)),
    submittedTx := Some(NO_TX), executedTx := Some(NO_TX), cancelledTx := Some(NO_TX))

  const RESUMED := Patch(status := Some(PendingExecute), statusReason := Some(SubmittedToChain), lastBlockReason := Some(NoReason))

  const LOST_HASH := Patch(status := Some(Open), statusReason := Some(Noted(PendingWithoutTxHash)),
    lastBlockReason := Some(Noted(PendingWithoutTxHash)), submittedTx := Some(NO_TX), cancelledTx := Some(NO_TX))

  /** One guarded write of the receipt loop for the row it read. */
  datatype Move = Move(allowed: set<Status>, patch: Patch)

  /** Tracking a pending transaction from the row `o`; `cancel` was settled by the status first read. */
  function TrackMove(o: Order, cancel: bool, a: PendingAnswers): Option<Move> {
    var allowed := if cancel then {PendingCancel} else {PendingExecute};
    var tx := if cancel then o.cancelledTx else o.submittedTx;
    if tx == NO_TX then Some(Move(allowed, LOST_HASH))
    else
      var patch := if cancel then CancelReceiptPatch(o.definition, a) else ExecuteReceiptPatch(o.definition, tx, a);
      if patch.None? then None else Some(Move(allowed, patch.value))
  }

  /** The first write of the receipt loop. */
  function ReconcileMove(o: Order, a: PendingAnswers): Option<Move> {
    if o.status == SubmittingExecute then
      Some(Move({SubmittingExecute}, if o.submittedTx == NO_TX then INTERRUPTED else RESUMED))
    else TrackMove(o, o.status == PendingCancel, a)
  }

  /** Whether the receipt loop reads the row again and goes on after its first write. */
  predicate Resumes(o: Order) {
    o.status == SubmittingExecute && o.submittedTx != NO_TX
  }

  // ---------------------------------------------------------------- the worker

  /** What the store holds after other actors have committed in between. */
  datatype Tables = Tables(orderRows: map<OrderId, OrderRow>, runtimes: map<OrderId, Runtime>, events: map<EventKey, Event>) {
    predicate Holds(id: OrderId) {
      id in orderRows && orderRows.Keys <= runtimes.Keys && WellKeyed(events)
    }

    function Flat(): map<OrderId, Order> {
      Joined(orderRows, runtimes)
    }
  }

  /** The orders with one guarded update made. */
  function Updated(orders: map<OrderId, Order>, id: OrderId, move: Option<Move>): map<OrderId, Order> {
    if id !in orders || move.None? then orders
    else orders[id := Guarded(orders[id], move.value.allowed, move.value.patch)]
  }

  const PAYLOAD_INVALID := Patch(status := Some(Open), statusReason := Some(Noted(PayloadInvalid)))

  /** How the evaluation of a row that was read as `row` begins, on the orders as they stand. */
  datatype Start = Delayed | Unreadable | Lost | Taken(payload: SettlementOrder) | Unclaimed(payload: SettlementOrder)

  function Begin(orders: map<OrderId, Order>, id: OrderId, row: Order, now: nat, cfg: Config): Start {
    if DelaysRecheck(row, now, cfg.retryInterval) then Delayed
    else
      match BuildSettlementOrder(row.definition)
      case None => Unreadable
      case Some(p) =>
        if row.status != Open then Unclaimed(p)
        else if id in orders && orders[id].status == Open then Taken(p)
        else Lost
  }

  /** The first write of an evaluation. */
  function FirstMove(start: Start, now: nat): Option<Move> {
    match start
    case Unreadable => Some(Move({Open}, PAYLOAD_INVALID))
    case Taken(_) => Some(Move({Open}, ClaimPatch(now)))
    case _ => None
  }

  /** The write that ends an evaluation. */
  function LastMove(claimed: bool, d: Definition, p: SettlementOrder, cfg: Config, a: Answers, now: nat): Move {
    var v := Judge(d, p, cfg, a, now);
    Move(if claimed || v.Submit? then {SubmittingExecute} else {Open}, ClosingPatch(v, a.execute, now))
  }

  /** However evaluation ends, its closing update moves the order out of submitting_execute,
      and to a further status only on the chain's word for it. */
  lemma ClosingReleasesClaim(d: Definition, p: SettlementOrder, cfg: Config, a: Answers, now: nat)
    ensures var patch := ClosingPatch(Judge(d, p, cfg, a, now), a.execute, now);
      && patch.status.Some? && patch.status.value !in {SubmittingExecute, PendingCancel}
      && patch.lastExecutionCheckAt == Some(now)
      && (patch.status == Some(PendingExecute) ==>
            a.execute.Answered? && patch.submittedTx == Some(a.execute.value) && Judge(d, p, cfg, a, now).Submit?)
      && (patch.status == Some(Executed) ==> a.executed == Answered(true))
      && (patch.status == Some(Cancelled) ==> a.invalidated == Answered(true))
      && (patch.status == Some(Expired) ==> a.blockTime.Answered? && p.expiry <= a.blockTime.value)
  {
    if a.blockTime.Answered? && p.expiry > a.blockTime.value && a.readiness == Answered(Executable) {
      BlockedExecutableReopens(d, p, cfg, a, a.blockTime.value, now);
    }
  }

  class Worker {
    const db: Database
    const cfg: Config

    constructor (db: Database, cfg: Config)
      ensures this.db == db && this.cfg == cfg
    {
      this.db, this.cfg := db, cfg;
    }

    /** Other actors' transactions, between two of this worker's own. */
    method Yield(others: Tables)
      modifies db
      ensures db.orderRows == others.orderRows && db.runtimes == others.runtimes && db.events == others.events
    {
      db.orderRows, db.runtimes, db.events := others.orderRows, others.runtimes, others.events;
    }

    /** Evaluates one order of the scan. `others` is the store as it stands, after the
        chain calls, when the closing update is made. */
    method EvaluateOrder(id: OrderId, snapshot: Order, now: nat, a: Answers, others: Tables)
      returns (claimed: bool, submitted: Option<Verdict>)
      requires db.Valid() && id in db.Flat() && others.Holds(id)
      modifies db
      ensures db.Valid()
      ensures var before := old(db.Flat());
        var start := Begin(before, id, snapshot, now, cfg);
        && claimed == start.Taken?
        && (start.Delayed? || start.Unreadable? || start.Lost? ==>
              db.Flat() == Updated(before, id, FirstMove(start, now)) && submitted == None)
        && (start.Taken? || start.Unclaimed? ==>
              var d := (if claimed then before[id] else snapshot).definition;
              var v := Judge(d, start.payload, cfg, a, now);
              && db.Flat() == Updated(others.Flat(), id, Some(LastMove(claimed, d, start.payload, cfg, a, now)))
              && submitted == if v.Submit? then Some(v) else None)
        && (claimed ==> id in db.Flat() && db.Flat()[id].status != SubmittingExecute)
        && (submitted.Some? && before[id].definition == snapshot.definition ==>
              KeepsSigned(snapshot.definition, cfg, a, submitted.value))
    {
      hide KeepsSigned;
      claimed, submitted := false, None;
      if DelaysRecheck(snapshot, now, cfg.retryInterval) { return; }
      var built := BuildSettlementOrder(snapshot.definition);
      if built.None? {
        var _ := db.UpdateFieldsIfStatusIn(id, {Open}, PAYLOAD_INVALID, now);
        return;
      }
      var payload := built.value;
      var allowed := {Open};
      var order := snapshot;
      if snapshot.status == Open {
        claimed := db.ClaimOpenOrderForExecution(id, now);
        if !claimed { return; }
        var refreshed := db.GetByOrderHash(id);
        order := refreshed.value;
        allowed := {SubmittingExecute};
      }
      var verdict := Judge(order.definition, payload, cfg, a, now);
      if verdict.Submit? {
        submitted := Some(verdict);
        if order.definition == snapshot.definition { SubmissionIsSafe(order.definition, payload, cfg, a, now); }
        allowed := {SubmittingExecute};
      }
      Yield(others);
      ClosingReleasesClaim(order.definition, payload, cfg, a, now);
      var _ := db.UpdateFieldsIfStatusIn(id, allowed, ClosingPatch(verdict, a.execute, now), now);
    }

    method Write(id: OrderId, move: Option<Move>, now: nat)
      requires db.Valid() && id in db.Flat()
      modifies db`orderRows, db`runtimes
      ensures db.Valid()
      ensures db.Flat() == Updated(old(db.Flat()), id, move)
    {
      if move.Some? { var _ := db.UpdateFieldsIfStatusIn(id, move.value.allowed, move.value.patch, now); }
    }

    /** Reconciles one pending order with the chain. When the loop resumes a submission,
        `read` is the store at its second read and `written` the store at its second write. */
    method CheckPendingReceipt(id: OrderId, snapshot: Order, a: PendingAnswers, now: nat, read: Tables, written: Tables)
      requires db.Valid() && id in db.Flat() && read.Holds(id) && written.Holds(id)
      modifies db
      ensures db.Valid()
      ensures var before := old(db.Flat());
        if Resumes(snapshot) then
          db.Flat() == Updated(written.Flat(), id, TrackMove(read.Flat()[id], false, a))
        else
          db.Flat() == Updated(before, id, ReconcileMove(snapshot, a))
    {
      Write(id, ReconcileMove(snapshot, a), now);
      if Resumes(snapshot) {
        Yield(read);
        var refreshed := db.GetByOrderHash(id);
        var again := TrackMove(refreshed.value, false, a);
        Yield(written);
        Write(id, again, now);
      }
    }
  }
}
