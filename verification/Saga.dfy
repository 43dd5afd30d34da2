/** The payment saga: hold, ask anti-fraud, pay through the gateway, capture; release the hold when a step
    after the hold fails. Anti-fraud and the gateway answer as they please. */
module Saga {
  import opened Prelude
  import opened Money
  import opened Transactions
  import opened Ledger
  import opened Balances
  import opened Bookkeeping
  import opened Accounting
  import opened HoldRepository
  import opened HoldUseCases
  import Interference

  datatype Command = Command(
    holdId: Id, wallet: Id, settlementAccount: Id, ids: SettlementIds, amount: int64, currency: string,
    recipient: string, description: string, expiresAt: Time, key: string, hash: string)

  /** Everything one run gets from outside: what the wallet looked like, what the two services answered, and
      the clock at each step. */
  datatype Environment = Environment(
    facts: WalletFacts, createClock: Clock, approved: bool, paid: bool, gatewayId: string,
    captureOperative: bool, captureAt: Time, captureClock: Clock, releaseClock: Clock)

  datatype SagaFailure =
    | InvalidCommand(error: DomainError)
    | EmptyKey
    | EmptyHash
    | AuthorizationFailed(cause: HoldFailure)
    | AntiFraudRejected
    | ExternalPaymentFailed
    | CaptureFailed(cause: HoldFailure)
    | CompensationFailed(cause: HoldFailure)

  /** A run that never asked the gateway has no transaction id from it. */
  datatype SagaResult =
    | Completed(holdId: Id, transactionId: Id, gatewayId: string)
    | Failed(failure: SagaFailure)

  /** The database after a run, its answer, and which services it asked. */
  datatype SagaRun = SagaRun(store: Store, result: SagaResult, askedFraud: bool, askedGateway: bool)

  predicate GoodCommand(c: Command) {
    && c.holdId != 0 && c.wallet != 0 && c.settlementAccount != 0
    && c.ids.transaction != 0 && c.ids.entry != 0 && c.ids.walletPosting != 0 && c.ids.settlementPosting != 0
    && c.amount > 0 && Trim(c.key) != "" && Trim(c.hash) != ""
  }

  function CommandFault(c: Command): (fault: Option<SagaFailure>)
    ensures fault == None <==> GoodCommand(c)
  {
    if c.holdId == 0 || c.wallet == 0 || c.settlementAccount == 0 || !Supplied(c.ids) then
      Some(InvalidCommand(InvalidId))
    else if c.amount <= 0 then Some(InvalidCommand(AmountMustBePositive))
    else if Trim(c.key) == "" then Some(EmptyKey)
    else if Trim(c.hash) == "" then Some(EmptyHash)
    else None
  }

  function HoldCommand(c: Command): CreateHoldCommand {
    CreateHoldCommand(c.holdId, c.wallet, c.amount, c.expiresAt, c.key, c.hash)
  }

  function SettleCommand(c: Command, holdId: Id): CaptureHoldCommand {
    CaptureHoldCommand(holdId, c.settlementAccount, c.ids, c.description, c.key + ":capture", c.hash + ":capture")
  }

  function Compensated(s: Store, holdId: Id, e: Environment, failure: SagaFailure, askedGateway: bool): SagaRun {
    var back := EndHoldStep(s, holdId, Released, e.releaseClock);
    SagaRun(back.store, Failed(if back.result.Err? then CompensationFailed(back.result.error) else failure),
            true, askedGateway)
  }

  function AfterHold(s: Store, h: Hold, c: Command, e: Environment): SagaRun {
    if h.status == Captured then SagaRun(s, Completed(h.id, c.ids.transaction, ""), false, false)
    else if !e.approved then Compensated(s, h.id, e, AntiFraudRejected, false)
    else if !e.paid then Compensated(s, h.id, e, ExternalPaymentFailed, true)
    else
      var captured := CaptureHoldStep(s, SettleCommand(c, h.id), e.captureOperative, e.captureAt, e.captureClock);
      match captured.result
      case Ok(tx) => SagaRun(captured.store, Completed(h.id, tx.id, e.gatewayId), true, true)
      case Err(cause) => Compensated(captured.store, h.id, e, CaptureFailed(cause), true)
  }

  /** One run on a database that nobody else writes meanwhile. */
  function Checkout(s: Store, c: Command, e: Environment): SagaRun {
    match CommandFault(c)
    case Some(fault) => SagaRun(s, Failed(fault), false, false)
    case None =>
      var held := CreateHoldStep(s, HoldCommand(c), e.facts, e.createClock);
      match held.result
      case Err(cause) => SagaRun(held.store, Failed(AuthorizationFailed(cause)), false, false)
      case Ok(h) => AfterHold(held.store, h, c, e)
  }

  datatype FraudRequest = FraudRequest(wallet: Id, amount: int64, currency: string, recipient: string)
  datatype PaymentRequest = PaymentRequest(paymentId: string, amount: int64, currency: string, recipient: string)

  class PaymentSagaOrchestrator {
    const holds: HoldRepository
    var fraudRequests: seq<FraudRequest>
    var paymentRequests: seq<PaymentRequest>

    constructor (holds: HoldRepository)
      ensures this.holds == holds && fraudRequests == [] && paymentRequests == []
    {
      this.holds, fraudRequests, paymentRequests := holds, [], [];
    }

    method CompensateHold(holdId: Id, e: Environment, failure: SagaFailure, ghost askedGateway: bool)
      returns (r: SagaResult)
      requires holds.db.Valid()
      modifies holds.db
      ensures holds.db.Valid()
      ensures SagaRun(holds.db.View(), r, true, askedGateway) ==
              Compensated(old(holds.db.View()), holdId, e, failure, askedGateway)
    {
      hide EndHoldStep;
      var released := ReleaseOrExpire(holds, holdId, Released, e.releaseClock);
      return Failed(if released.Err? then CompensationFailed(released.error) else failure);
    }

    /** What the run asked for, added to the two services' logs. */
    twostate predicate Asked(c: Command, run: SagaRun)
      reads this
    {
      && fraudRequests == old(fraudRequests) +
         (if run.askedFraud then [FraudRequest(c.wallet, c.amount, c.currency, c.recipient)] else [])
      && paymentRequests == old(paymentRequests) +
         (if run.askedGateway then [PaymentRequest(c.key, c.amount, c.currency, c.recipient)] else [])
    }

    method Proceed(h: Hold, c: Command, e: Environment) returns (r: SagaResult)
      requires holds.db.Valid() && holds.Wired()
      modifies this, holds.db
      ensures holds.db.Valid()
      ensures var run := AfterHold(old(holds.db.View()), h, c, e);
              holds.db.View() == run.store && r == run.result && Asked(c, run)
    {
      hide CaptureHoldStep, EndHoldStep, Compensated, LedgerInv;
      if h.status == Captured { return Completed(h.id, c.ids.transaction, ""); }
      fraudRequests := fraudRequests + [FraudRequest(c.wallet, c.amount, c.currency, c.recipient)];
      if !e.approved {
        r := CompensateHold(h.id, e, AntiFraudRejected, false);
        return;
      }
      paymentRequests := paymentRequests + [PaymentRequest(c.key, c.amount, c.currency, c.recipient)];
      if !e.paid {
        r := CompensateHold(h.id, e, ExternalPaymentFailed, true);
        return;
      }
      var captured := CaptureHold(holds, SettleCommand(c, h.id), e.captureOperative, e.captureAt, e.captureClock);
      if captured.Err? {
        r := CompensateHold(h.id, e, CaptureFailed(captured.error), true);
        return;
      }
      return Completed(h.id, captured.value.id, e.gatewayId);
    }

    /** Execute is the specified run, and asks each service at most once, with the command's own data. */
    method Execute(c: Command, e: Environment) returns (r: SagaResult)
      requires holds.db.Valid() && holds.Wired()
      modifies this, holds.db
      ensures holds.db.Valid()
      ensures var run := Checkout(old(holds.db.View()), c, e);
              holds.db.View() == run.store && r == run.result && Asked(c, run)
    {
      hide CreateHoldStep, AfterHold, LedgerInv, Trim;
      if c.holdId == 0 || c.wallet == 0 || c.settlementAccount == 0 { return Failed(InvalidCommand(InvalidId)); }
      if !Supplied(c.ids) { return Failed(InvalidCommand(InvalidId)); }
      if c.amount <= 0 { return Failed(InvalidCommand(AmountMustBePositive)); }
      if Trim(c.key) == "" { return Failed(EmptyKey); }
      if Trim(c.hash) == "" { return Failed(EmptyHash); }
      var created := CreateHold(holds, HoldCommand(c), e.facts, e.createClock);
      if created.Err? { return Failed(AuthorizationFailed(created.error)); }
      r := Proceed(created.value, c, e);
    }
  }

  // ---------------------------------------------------------------- what each step leaves

  /** The hold a run works on: the stored one with the command's wallet, key and hash. */
  lemma HeldIsStored(s: Store, c: Command, e: Environment)
    requires CommandFault(c) == None && CreateHoldStep(s, HoldCommand(c), e.facts, e.createClock).result.Ok?
    ensures var held := CreateHoldStep(s, HoldCommand(c), e.facts, e.createClock);
            var h := held.result.value;
            && FindHoldByKey(held.store, c.wallet, Trim(c.key)) == Some(h)
            && h.wallet == c.wallet && h.key == Trim(c.key) && h.hash == Trim(c.hash)
            && c.wallet in s.wallets && held.store.wallets == s.wallets
  {
    hide HoldKeyIndex, Fits64, Trim;
    FoundAfterAppendAnyway(s, NewHold(HoldCommand(c), e.facts.currency));
  }

  lemma FoundAfterAppendAnyway(s: Store, h: Hold)
    ensures FindHoldByKey(s, h.wallet, h.key) == None ==>
              FindHoldByKey(s.(holds := s.holds + [h]), h.wallet, h.key) == Some(h)
  {
    if FindHoldByKey(s, h.wallet, h.key) == None { FoundAfterAppend(s, h); }
  }

  lemma FoundById(s: Store, wallet: Id, key: string)
    requires LedgerInv(s) && FindHoldByKey(s, wallet, key).Some?
    ensures FindHold(s, FindHoldByKey(s, wallet, key).value.id) == FindHoldByKey(s, wallet, key)
  {
    hide KeysMatchLog, OutboxComplete, SoundRows, HoldKeyIndex, HoldIndex;
    var i := HoldKeyIndex(s.holds, wallet, key);
    Interference.HoldIndexIs(s.holds, s.holds[i].id, i);
  }

  lemma ReleaseStepEnds(s: Store, id: Id, clock: Clock)
    ensures var back := EndHoldStep(s, id, Released, clock);
            && (back.result.Err? ==> back.store == s)
            && (back.result.Ok? ==>
                  && FindHold(s, id).Some? && FindHold(s, id).value.status == Authorized
                  && back.store == SetStatus(s, id, Released)
                  && FindHold(back.store, id) == Some(FindHold(s, id).value.(status := Released)))
  {
    hide HoldIndex, SetStatus;
    Interference.FindAfterStatus(s, id, Released, id);
  }

  lemma CaptureStepEnds(s: Store, c: CaptureHoldCommand, operative: bool, at: Time, clock: Clock)
    ensures var done := CaptureHoldStep(s, c, operative, at, clock);
            && (done.result.Err? ==> done.store == s)
            && (done.result.Ok? ==>
                  && FindHold(done.store, c.holdId).Some?
                  && FindHold(done.store, c.holdId).value.status == Captured)
            && (done.result.Ok? ==> done.result.value.id == c.ids.transaction)
  {
    hide HoldIndex, Fits64, Insertable, TouchedWallets, SetStatus, Trim;
    if FindHold(s, c.holdId).Some? && FindHold(s, c.holdId).value.wallet in s.wallets {
      var tx := SettlementOf(s, c);
      Interference.FindAfterStatus(s, c.holdId, Captured, c.holdId);
      Interference.FindAfterStatus(Insert(s, tx, Trim(c.key), Trim(c.hash)), c.holdId, Captured, c.holdId);
    }
  }

  predicate AfterAuthorization(f: SagaFailure) {
    f.AntiFraudRejected? || f.ExternalPaymentFailed? || f.CaptureFailed?
  }

  lemma AfterHoldOutcome(s: Store, h: Hold, c: Command, e: Environment)
    requires FindHold(s, h.id) == Some(h)
    ensures var run := AfterHold(s, h, c, e);
            && (run.result.Completed? ==>
                  && run.result == Completed(h.id, c.ids.transaction, if run.askedGateway then e.gatewayId else "")
                  && FindHold(run.store, h.id).Some? && FindHold(run.store, h.id).value.status == Captured)
            && (run.result.Failed? ==> AfterAuthorization(run.result.failure) || run.result.failure.CompensationFailed?)
            && (run.result.Failed? && AfterAuthorization(run.result.failure) ==>
                  && h.status == Authorized
                  && run.store == SetStatus(s, h.id, Released)
                  && FindHold(run.store, h.id) == Some(h.(status := Released)))
            && (run.result.Failed? && run.result.failure.CompensationFailed? ==> run.store == s)
  {
    hide FindHold, SetStatus, CaptureHoldStep, EndHoldStep;
    ReleaseStepEnds(s, h.id, e.releaseClock);
    CaptureStepEnds(s, SettleCommand(c, h.id), e.captureOperative, e.captureAt, e.captureClock);
  }

  /** With no interference on its hold: a completed run leaves the hold captured; a run that fails after the
      authorization leaves it released, unless it says that compensation failed, and then the run has written
      nothing since the authorization. */
  lemma {:induction false} SagaOutcome(s: Store, c: Command, e: Environment)
    requires LedgerInv(s)
    ensures var run := Checkout(s, c, e);
            var held := CreateHoldStep(s, HoldCommand(c), e.facts, e.createClock);
            && (run.result.Completed? ==>
                  && CommandFault(c) == None && held.result.Ok?
                  && run.result == Completed(held.result.value.id, c.ids.transaction,
                                             if run.askedGateway then e.gatewayId else "")
                  && FindHold(run.store, held.result.value.id).Some?
                  && FindHold(run.store, held.result.value.id).value.status == Captured)
            && (run.result.Failed? ==>
                  if AfterAuthorization(run.result.failure) then
                    && held.result.Ok?
                    && FindHold(run.store, held.result.value.id) == Some(held.result.value.(status := Released))
                  else if run.result.failure.CompensationFailed? then run.store == held.store
                  else run.store == s)
  {
    hide LedgerInv, FindHold, AfterHold, CreateHoldStep;
    if CommandFault(c) == None {
      var held := CreateHoldStep(s, HoldCommand(c), e.facts, e.createClock);
      CreateStepKeeps(s, HoldCommand(c), e.facts, e.createClock);
      if held.result.Ok? {
        HeldIsStored(s, c, e);
        FoundById(held.store, c.wallet, Trim(c.key));
        AfterHoldOutcome(held.store, held.result.value, c, e);
      }
    }
  }

  lemma CreateStepKeeps(s: Store, c: CreateHoldCommand, w: WalletFacts, clock: Clock)
    requires LedgerInv(s)
    ensures LedgerInv(CreateHoldStep(s, c, w, clock).store)
    ensures CreateHoldStep(s, c, w, clock).result.Err? ==> CreateHoldStep(s, c, w, clock).store == s
  {
    hide LedgerInv, AuthorizeOutcome, FindHoldByKey, Fits64, Trim;
    if CreateFault(s, c, w, clock.checked) == None {
      var op := Authorize(NewHold(c, w.currency));
      OutcomeKeeps(s, op, Clock(clock.began, clock.began), Fits64(s, op, clock.began));
      NotDoneChangesNothing(s, op, Clock(clock.began, clock.began), Fits64(s, op, clock.began));
    }
  }
}
