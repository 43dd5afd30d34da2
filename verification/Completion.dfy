/** Exactly when a run of a checkout completes. */
module Completion {
  import opened Prelude
  import opened Money
  import opened Transactions
  import opened Ledger
  import opened Balances
  import opened Bookkeeping
  import opened Accounting
  import opened HoldUseCases
  import opened Saga
  import opened Checkouts
  import opened Interference

  /** Every wallet is in order when the hold is made, and the capture comes later. */
  predicate InOrder(s: Store, e: Environment) {
    && NonNegative(s, e.createClock.began)
    && e.createClock.began <= e.captureClock.began <= e.captureClock.checked
  }

  /** What a capture of the hold needs: a good request, a hold that is still authorized, rows that nothing refuses,
      and the amount available beside every reservation, the hold's own included. */
  predicate Capturable(s: Store, c: Command, h: Hold, e: Environment) {
    && FindHold(s, h.id) == Some(h)
    && GoodCaptureRequest(s, SettleCommand(c, h.id), e.captureOperative, e.captureAt)
    && h.status == Authorized && e.captureClock.checked < h.expiresAt
    && Insertable(s, SettlementOf(s, SettleCommand(c, h.id)), CaptureKey(c))
    && CanPay(s, s.wallets[h.wallet], c.amount, e.captureClock.began)
    && CanTake(s, c.settlementAccount, c.amount, e.captureClock.began)
  }

  lemma HoldStepNonNegative(s: Store, c: Command, e: Environment)
    requires LedgerInv(s) && InOrder(s, e)
    ensures NonNegative(CreateHoldStep(s, HoldCommand(c), e.facts, e.createClock).store, e.captureClock.began)
  {
    hide LedgerInv, NonNegative, Apply64, FindHoldByKey, WellFormed, Trim;
    var held := CreateHoldStep(s, HoldCommand(c), e.facts, e.createClock).store;
    SoundFromLedger(s);
    CreateStepKeeps(s, HoldCommand(c), e.facts, e.createClock);
    SoundFromLedger(held);
    if held != s {
      var op := Authorize(NewHold(HoldCommand(c), e.facts.currency));
      NewHoldWellFormed(s, c, e);
      Apply64KeepsNonNegative(s, op, e.createClock.began);
    }
    StaysNonNegative(held, e.createClock.began, e.captureClock.began);
  }

  lemma NewHoldWellFormed(s: Store, c: Command, e: Environment)
    requires CreateFault(s, HoldCommand(c), e.facts, e.createClock.checked) == None
    ensures WellFormed(Authorize(NewHold(HoldCommand(c), e.facts.currency)))
  {
    hide Trim;
  }

  /** Time alone overdraws nobody. */
  lemma StaysNonNegative(s: Store, t: Time, later: Time)
    requires SoundRows(s) && NonNegative(s, t) && t <= later
    ensures NonNegative(s, later)
  {
    forall a | a in s.wallets.Values ensures Available(s, a, later) >= 0 {
      ActiveHoldsLapse(s.wallets, s.holds, a, t, later);
    }
  }

  /** A run completes if and only if it has a hold that is captured already, or anti-fraud approves, the gateway
      pays, and the hold can be captured in the database that the hold step leaves. */
  lemma {:induction false} CompletesIff(s: Store, c: Command, e: Environment)
    requires CheckoutInv(s, c) && GoodCommand(c) && InOrder(s, e)
    ensures var held := CreateHoldStep(s, HoldCommand(c), e.facts, e.createClock);
            Checkout(s, c, e).result.Completed? <==>
            && held.result.Ok?
            && var h := held.result.value;
               h.status == Captured || (e.approved && e.paid && Capturable(held.store, c, h, e))
  {
    hide CheckoutInv, GoodCommand, CommandFault, CreateHoldStep, CaptureHoldStep, EndHoldStep, InOrder, Trim, FindHold,
         FindHoldByKey;
    var held := CreateHoldStep(s, HoldCommand(c), e.facts, e.createClock);
    if held.result.Ok? && held.result.value.status != Captured {
      OwnHoldOnly(s, c, e);
      CaptureStepIff(s, c, e);
    }
  }

  lemma CaptureStepIff(s: Store, c: Command, e: Environment)
    requires CheckoutInv(s, c) && GoodCommand(c) && InOrder(s, e)
    requires CreateHoldStep(s, HoldCommand(c), e.facts, e.createClock).result.Ok?
    requires CreateHoldStep(s, HoldCommand(c), e.facts, e.createClock).result.value.status != Captured
    ensures var held := CreateHoldStep(s, HoldCommand(c), e.facts, e.createClock);
            var h := held.result.value;
            var settle := SettleCommand(c, h.id);
            CaptureHoldStep(held.store, settle, e.captureOperative, e.captureAt, e.captureClock).result.Ok?
            <==> Capturable(held.store, c, h, e)
  {
    hide GoodCommand, CommandFault, CreateHoldStep, CaptureHoldStep, InOrder, Trim, FindHold, FindHoldByKey, LedgerInv,
         NonNegative, Insertable, CanPay, CanTake, GoodCaptureRequest;
    var held := CreateHoldStep(s, HoldCommand(c), e.facts, e.createClock);
    OwnHoldOnly(s, c, e);
    HoldStepNonNegative(s, c, e);
    var settle := SettleCommand(c, held.result.value.id);
    CaptureGrantedIff(held.store, settle, e.captureOperative, e.captureAt, e.captureClock);
  }

  /** Under a key that has a hold, the database that matters is the present one. */
  lemma {:induction false} StoredCompletesIff(s: Store, c: Command, e: Environment, h: Hold)
    requires CheckoutInv(s, c) && GoodCommand(c) && InOrder(s, e)
    requires FindHoldByKey(s, c.wallet, Trim(c.key)) == Some(h)
    ensures Checkout(s, c, e).result.Completed? <==>
            && GoodHoldRequest(s, HoldCommand(c), e.facts, e.createClock.checked) && h.hash == Trim(c.hash)
            && (h.status == Captured || (e.approved && e.paid && Capturable(s, c, h, e)))
  {
    hide CheckoutInv, GoodCommand, CommandFault, Checkout, Capturable, InOrder, Trim, FindHold, FindHoldByKey, Fits64;
    CompletesIff(s, c, e);
  }

  /** A new hold is granted: a known wallet in operation, a hold yet to expire, a free id, and the amount available. */
  predicate FreshGranted(s: Store, c: Command, e: Environment) {
    && c.wallet in s.wallets && e.facts.operative && ValidCurrency(e.facts.currency)
    && e.createClock.checked < c.expiresAt
    && FindHold(s, c.holdId) == None
    && CanPay(s, s.wallets[c.wallet], c.amount, e.createClock.began)
  }

  /** The hold that a run under a new key makes. */
  function FreshHold(c: Command, e: Environment): Hold {
    Hold(c.holdId, c.wallet, Money(e.facts.currency, c.amount), Authorized, Trim(c.key), Trim(c.hash), c.expiresAt)
  }

  /** What a capture of a hold that is yet to be made needs of the present database. */
  predicate FreshCapturable(s: Store, c: Command, e: Environment)
    requires c.wallet in s.wallets
  {
    var from, to, t := s.wallets[c.wallet], c.settlementAccount, e.captureClock.began;
    && e.captureOperative && from != to && from != 0 && Trim(c.description) != ""
    && e.captureAt < c.expiresAt && e.captureClock.checked < c.expiresAt
    && Insertable(s, Settlement(FreshHold(c, e), from, to, c.ids, c.description), CaptureKey(c))
    && CanPay(s, from, 2 * c.amount as int, t) && CanTake(s, to, c.amount, t)
  }

  /** Under a new key it is the amount twice over: a run completes if and only if the hold is granted, anti-fraud
      approves, the gateway pays, the settlement's rows insert before the hold expires, and twice the amount is
      available when the capture reads the balance. */
  lemma {:induction false} FreshCompletesIff(s: Store, c: Command, e: Environment)
    requires CheckoutInv(s, c) && GoodCommand(c) && InOrder(s, e)
    requires FindHoldByKey(s, c.wallet, Trim(c.key)) == None
    ensures Checkout(s, c, e).result.Completed? <==>
            FreshGranted(s, c, e) && e.approved && e.paid && FreshCapturable(s, c, e)
  {
    hide CheckoutInv, GoodCommand, CommandFault, Checkout, Capturable, FreshCapturable, Trim, FindHold, FindHoldByKey,
         CreateHoldStep, NonNegative, SoundRows, InOrder;
    hide FreshGranted;
    CompletesIff(s, c, e);
    HoldMadeIff(s, c, e);
    if CreateHoldStep(s, HoldCommand(c), e.facts, e.createClock).result.Ok? {
      SoundHere(s, c);
      NewHoldStored(s, c, e);
      OwnHoldOnly(s, c, e);
      FreshCapturableIff(s, c, e);
    }
  }

  lemma HoldMadeIff(s: Store, c: Command, e: Environment)
    requires CheckoutInv(s, c) && GoodCommand(c) && InOrder(s, e)
    requires FindHoldByKey(s, c.wallet, Trim(c.key)) == None
    ensures CreateHoldStep(s, HoldCommand(c), e.facts, e.createClock).result.Ok? <==> FreshGranted(s, c, e)
  {
    hide LedgerInv, Trim, FindHold, FindHoldByKey, CreateHoldStep, CanPay, NonNegative, SoundRows;
    SoundHere(s, c);
    HoldGrantedIff(s, HoldCommand(c), e.facts, e.createClock);
    CreateStepKeeps(s, HoldCommand(c), e.facts, e.createClock);
    if CreateHoldStep(s, HoldCommand(c), e.facts, e.createClock).result.Ok? {
      NewHoldStored(s, c, e);
      assert s.holds + [NewHold(HoldCommand(c), e.facts.currency)] != s.holds;
    }
  }

  lemma SoundHere(s: Store, c: Command)
    requires CheckoutInv(s, c)
    ensures SoundRows(s)
  {
    hide LedgerInv, Trim, FindHoldByKey;
    SoundFromLedger(s);
  }

  lemma {:induction false} TrimLeftKeepsLast(x: string)
    requires x != "" && !IsSpace(x[|x| - 1])
    ensures TrimLeft(x) != "" && TrimLeft(x)[|TrimLeft(x)| - 1] == x[|x| - 1]
  {
    if IsSpace(x[0]) { TrimLeftKeepsLast(x[1..]); }
  }

  /** A suffix that is not blank is never trimmed away. */
  lemma SuffixStays(x: string)
    ensures Trim(x + ":capture") != ""
  {
    TrimLeftKeepsLast(x + ":capture");
  }

  lemma FreshFault(s: Store, c: Command, e: Environment, h: Hold)
    requires GoodCommand(c) && FindHold(s, c.holdId) == Some(h) && h.id == c.holdId
    requires h.status == Authorized && h.wallet == c.wallet && c.wallet in s.wallets
    ensures GoodCaptureRequest(s, SettleCommand(c, h.id), e.captureOperative, e.captureAt) <==>
            && e.captureOperative && s.wallets[c.wallet] != c.settlementAccount && s.wallets[c.wallet] != 0
            && Trim(c.description) != "" && e.captureAt < h.expiresAt
  {
    hide FindHold, Trim;
    SuffixStays(c.key);
    SuffixStays(c.hash);
  }

  lemma FreshAffordable(s: Store, h: Hold, from: Id, to: Id, t: Time)
    requires SoundRows(s) && h.amount.amount > 0 && h.status == Authorized && t < h.expiresAt && from != to
    requires h.wallet in s.wallets && s.wallets[h.wallet] == from
    ensures var held := s.(holds := s.holds + [h]);
            CanPay(held, from, h.amount.amount, t) <==> CanPay(s, from, 2 * h.amount.amount as int, t)
    ensures CanTake(s.(holds := s.holds + [h]), to, h.amount.amount, t) <==> CanTake(s, to, h.amount.amount, t)
  {
    hide Booked, ActiveHolds, SoundRows;
    ActiveHoldsAppend(s, h, from, t);
    ActiveHoldsAppend(s, h, to, t);
  }

  lemma ActiveHoldsAppend(s: Store, h: Hold, a: Id, t: Time)
    ensures ActiveHolds(s.wallets, s.holds + [h], a, t) ==
            ActiveHolds(s.wallets, s.holds, a, t) + Reserved(s.wallets, h, a, t)
  {
    assert (s.holds + [h])[..|s.holds + [h]| - 1] == s.holds;
  }

  lemma FreshCapturableIff(s: Store, c: Command, e: Environment)
    requires SoundRows(s) && GoodCommand(c) && InOrder(s, e) && c.wallet in s.wallets
    requires var h := NewHold(HoldCommand(c), e.facts.currency);
             FindHold(s.(holds := s.holds + [h]), h.id) == Some(h)
    ensures var h := NewHold(HoldCommand(c), e.facts.currency);
            Capturable(s.(holds := s.holds + [h]), c, h, e) <==> FreshCapturable(s, c, e)
  {
    hide FindHold, Trim, Insertable, NonNegative, SoundRows, CanPay, CanTake, GoodCaptureRequest;
    var h := NewHold(HoldCommand(c), e.facts.currency);
    var held := s.(holds := s.holds + [h]);
    FreshFault(held, c, e, h);
    var tx := Settlement(h, s.wallets[c.wallet], c.settlementAccount, c.ids, c.description);
    SameInsertable(s, held, tx, CaptureKey(c));
    if e.captureClock.checked < c.expiresAt && s.wallets[c.wallet] != c.settlementAccount {
      FreshAffordable(s, h, s.wallets[c.wallet], c.settlementAccount, e.captureClock.began);
    }
  }

  lemma SameInsertable(s: Store, s': Store, tx: Transaction, key: string)
    requires s'.log == s.log && s'.keys == s.keys && s'.accounts == s.accounts
    ensures Insertable(s, tx, key) == Insertable(s', tx, key)
  {
  }

  /** What it costs: a run that has an authorized hold, is approved and paid, and does not complete has paid the gateway
      and posted nothing. */
  lemma {:induction false} PaidInVain(s: Store, c: Command, e: Environment)
    requires CheckoutInv(s, c) && GoodCommand(c) && e.approved && e.paid
    requires CreateHoldStep(s, HoldCommand(c), e.facts, e.createClock).result.Ok?
    requires CreateHoldStep(s, HoldCommand(c), e.facts, e.createClock).result.value.status != Captured
    requires !Checkout(s, c, e).result.Completed?
    ensures Checkout(s, c, e).askedGateway
    ensures Checkout(s, c, e).store.log == s.log && Checkout(s, c, e).store.keys == s.keys
    ensures CaptureKey(c) !in Checkout(s, c, e).store.keys
  {
    hide LedgerInv, GoodCommand, CommandFault, CreateHoldStep, CaptureHoldStep, EndHoldStep, SetStatus, Trim, FindHold,
         FindHoldByKey;
    var held := CreateHoldStep(s, HoldCommand(c), e.facts, e.createClock);
    var h := held.result.value;
    OwnHoldOnly(s, c, e);
    CaptureStepEnds(held.store, SettleCommand(c, h.id), e.captureOperative, e.captureAt, e.captureClock);
    ReleaseStepEnds(held.store, h.id, e.releaseClock);
    StatusKeepsLog(held.store, h.id, Released);
  }

  lemma StatusKeepsLog(s: Store, id: Id, status: HoldStatus)
    ensures SetStatus(s, id, status).log == s.log && SetStatus(s, id, status).keys == s.keys
  {
  }

  // ---------------------------------------------------------------- what a run answers

  /** The answers to a command that is not good, in the order of the checks. */
  predicate FaultOfCommand(f: SagaFailure, c: Command) {
    var named := c.holdId != 0 && c.wallet != 0 && c.settlementAccount != 0 && Supplied(c.ids);
    match f
    case InvalidCommand(InvalidId) => !named
    case InvalidCommand(AmountMustBePositive) => named && c.amount <= 0
    case EmptyKey => named && c.amount > 0 && Trim(c.key) == ""
    case EmptyHash => named && c.amount > 0 && Trim(c.key) != "" && Trim(c.hash) == ""
    case _ => false
  }

  /** A command that is not good is told so, and nobody is asked. */
  lemma {:induction false} BadCommandAnswers(s: Store, c: Command, e: Environment)
    requires !GoodCommand(c)
    ensures var run := Checkout(s, c, e);
            && run.store == s && !run.askedFraud && !run.askedGateway
            && run.result.Failed? && FaultOfCommand(run.result.failure, c)
  {
    hide Trim, CreateHoldStep, AfterHold;
  }

  /** The answers of a run on a hold that is authorized: ok says that the capture would go through, until is the
      expiry of the hold. */
  predicate AnswersAuthorized(run: SagaRun, holdId: Id, c: Command, e: Environment, until: Time, ok: bool) {
    var inTime := e.releaseClock.checked < until;
    && run.askedFraud && (run.askedGateway <==> e.approved)
    && (run.result.Completed? <==> e.approved && e.paid && ok)
    && (run.result.Completed? ==> run.result == Completed(holdId, c.ids.transaction, e.gatewayId))
    && (run.result == Failed(AntiFraudRejected) <==> !e.approved && inTime)
    && (run.result == Failed(ExternalPaymentFailed) <==> e.approved && !e.paid && inTime)
    && (run.result.Failed? && run.result.failure.CaptureFailed? <==> e.approved && e.paid && !ok && inTime)
    && (run.result == Failed(CompensationFailed(Denied(HoldExpired))) <==>
          !(e.approved && e.paid && ok) && !inTime)
  }

  lemma AuthorizedAnswers(s: Store, c: Command, e: Environment)
    requires CheckoutInv(s, c) && GoodCommand(c) && InOrder(s, e)
    requires CreateHoldStep(s, HoldCommand(c), e.facts, e.createClock).result.Ok?
    requires CreateHoldStep(s, HoldCommand(c), e.facts, e.createClock).result.value.status == Authorized
    ensures var held := CreateHoldStep(s, HoldCommand(c), e.facts, e.createClock);
            var h := held.result.value;
            AnswersAuthorized(Checkout(s, c, e), h.id, c, e, h.expiresAt, Capturable(held.store, c, h, e))
  {
    hide LedgerInv, GoodCommand, CreateHoldStep, CaptureHoldStep, InOrder, Trim, HoldKeyIndex, HoldIndex, Capturable,
         SetStatus;
    var held := CreateHoldStep(s, HoldCommand(c), e.facts, e.createClock);
    var h := held.result.value;
    OwnHoldOnly(s, c, e);
    CaptureStepIff(s, c, e);
    CaptureStepEnds(held.store, SettleCommand(c, h.id), e.captureOperative, e.captureAt, e.captureClock);
    StoredIdNotZero(held.store, h.id);
    ReleaseStepEnds(held.store, h.id, e.releaseClock);
  }

  /** Under a new key. A run asks anti-fraud if and only if the command is good and the hold is granted, and has then
      made that hold; each answer has exactly its own cause. */
  lemma {:induction false} FreshAnswers(s: Store, c: Command, e: Environment)
    requires CheckoutInv(s, c) && InOrder(s, e) && FindHoldByKey(s, c.wallet, Trim(c.key)) == None
    ensures var run := Checkout(s, c, e);
            && (run.askedFraud <==> GoodCommand(c) && FreshGranted(s, c, e))
            && (!run.askedFraud ==> run.store == s && run.result.Failed?)
            && (run.askedFraud ==>
                  && FindHoldByKey(run.store, c.wallet, Trim(c.key)).Some?
                  && SameHold(FreshHold(c, e), FindHoldByKey(run.store, c.wallet, Trim(c.key)).value)
                  && AnswersAuthorized(run, c.holdId, c, e, c.expiresAt, FreshCapturable(s, c, e)))
  {
    hide CheckoutInv, GoodCommand, Checkout, FreshGranted, FreshCapturable, InOrder, Trim, FindHold, FindHoldByKey,
         CreateHoldStep, NonNegative, SoundRows, Capturable, AnswersAuthorized;
    if !GoodCommand(c) {
      BadCommandAnswers(s, c, e);
    } else {
      HoldMadeIff(s, c, e);
      if CreateHoldStep(s, HoldCommand(c), e.facts, e.createClock).result.Ok? {
        SoundHere(s, c);
        NewHoldStored(s, c, e);
        OwnHoldOnly(s, c, e);
        FreshCapturableIff(s, c, e);
        AuthorizedAnswers(s, c, e);
        HoldStays(s, c, e);
        AskedOne(Checkout(s, c, e), c.holdId, c, e, c.expiresAt, FreshCapturable(s, c, e));
      } else {
        UnheldAnswers(s, c, e);
      }
    }
  }

  lemma AskedOne(run: SagaRun, holdId: Id, c: Command, e: Environment, until: Time, ok: bool)
    requires AnswersAuthorized(run, holdId, c, e, until, ok)
    ensures run.askedFraud
  {
  }

  lemma UnheldAnswers(s: Store, c: Command, e: Environment)
    requires CheckoutInv(s, c) && GoodCommand(c)
    requires CreateHoldStep(s, HoldCommand(c), e.facts, e.createClock).result.Err?
    ensures var cause := CreateHoldStep(s, HoldCommand(c), e.facts, e.createClock).result.error;
            Checkout(s, c, e) == SagaRun(s, Failed(AuthorizationFailed(cause)), false, false)
  {
    hide CheckoutInv, GoodCommand, CreateHoldStep, AfterHold;
    FaultChangesNothing(s, c, e);
  }

  /** Whatever a run then does to its hold is a change of status. */
  lemma HoldStays(s: Store, c: Command, e: Environment)
    requires CheckoutInv(s, c) && GoodCommand(c)
    requires CreateHoldStep(s, HoldCommand(c), e.facts, e.createClock).result.Ok?
    ensures FindHoldByKey(Checkout(s, c, e).store, c.wallet, Trim(c.key)).Some?
    ensures SameHold(CreateHoldStep(s, HoldCommand(c), e.facts, e.createClock).result.value,
                     FindHoldByKey(Checkout(s, c, e).store, c.wallet, Trim(c.key)).value)
  {
    hide LedgerInv, GoodCommand, CreateHoldStep, Trim, HoldKeyIndex, HoldIndex, SetStatus, CheckoutInv;
    var held := CreateHoldStep(s, HoldCommand(c), e.facts, e.createClock);
    var h := held.result.value;
    OwnHoldOnly(s, c, e);
    CaptureStepKeepsHold(held.store, SettleCommand(c, h.id), e.captureOperative, e.captureAt, e.captureClock, c.wallet,
                         Trim(c.key));
    ReleaseStepEnds(held.store, h.id, e.releaseClock);
    CaptureStepEnds(held.store, SettleCommand(c, h.id), e.captureOperative, e.captureAt, e.captureClock);
    FindByKeyAfterStatus(held.store, h.id, Released, c.wallet, Trim(c.key));
  }

  lemma CaptureStepKeepsHold(
    s: Store, c: CaptureHoldCommand, operative: bool, at: Time, clock: Clock, wallet: Id, key: string)
    requires FindHoldByKey(s, wallet, key).Some?
    ensures var s' := CaptureHoldStep(s, c, operative, at, clock).store;
            && FindHoldByKey(s', wallet, key).Some?
            && SameHold(FindHoldByKey(s, wallet, key).value, FindHoldByKey(s', wallet, key).value)
  {
    hide HoldIndex, HoldKeyIndex, Fits64, Insertable, TouchedWallets, SetStatus, Trim;
    if FindHold(s, c.holdId).Some? && FindHold(s, c.holdId).value.wallet in s.wallets {
      var tx := SettlementOf(s, c);
      var posted := Insert(s, tx, Trim(c.key), Trim(c.hash));
      InsertKeepsHolds(s, tx, Trim(c.key), Trim(c.hash), c.holdId, wallet, key);
      FindByKeyAfterStatus(s, c.holdId, Captured, wallet, key);
      FindByKeyAfterStatus(posted, c.holdId, Captured, wallet, key);
    }
  }

  /** Under a key that has a hold: another request is turned away; the same one completes at once on a captured hold,
      tries again on an authorized one, and on a hold that was given back can only report a failed compensation. */
  lemma {:induction false} StoredAnswers(s: Store, c: Command, e: Environment, h: Hold)
    requires CheckoutInv(s, c) && GoodCommand(c) && InOrder(s, e)
    requires FindHoldByKey(s, c.wallet, Trim(c.key)) == Some(h)
    requires c.wallet in s.wallets && e.facts.operative && ValidCurrency(e.facts.currency)
    requires e.createClock.checked < c.expiresAt
    ensures var run := Checkout(s, c, e);
            if h.hash != Trim(c.hash) then
              run == SagaRun(s, Failed(AuthorizationFailed(Denied(HoldIdempotencyConflict))), false, false)
            else match h.status
              case Captured => run == SagaRun(s, Completed(h.id, c.ids.transaction, ""), false, false)
              case Authorized => AnswersAuthorized(run, h.id, c, e, h.expiresAt, Capturable(s, c, h, e))
              case _ => run == SagaRun(s, Failed(CompensationFailed(Denied(HoldNotAuthorized))), true, e.approved)
  {
    hide CheckoutInv, Checkout, Capturable, InOrder, Trim, FindHoldByKey, AnswersAuthorized, FindHold, NonNegative,
         CreateHoldStep;
    KeyedHoldAnswers(s, c, e, h);
    if h.hash != Trim(c.hash) {
      UnheldAnswers(s, c, e);
    } else {
      match h.status {
        case Captured => CapturedAtOnce(s, c, e);
        case Authorized => AuthorizedAnswers(s, c, e);
        case _ => GivenBack(s, c, e, h);
      }
    }
  }

  lemma GivenBack(s: Store, c: Command, e: Environment, h: Hold)
    requires CheckoutInv(s, c) && GoodCommand(c) && FindHoldByKey(s, c.wallet, Trim(c.key)) == Some(h)
    requires c.wallet in s.wallets && e.facts.operative && ValidCurrency(e.facts.currency)
    requires e.createClock.checked < c.expiresAt
    requires h.hash == Trim(c.hash) && (h.status == Released || h.status == Expired)
    ensures Checkout(s, c, e) ==
            SagaRun(s, Failed(CompensationFailed(Denied(HoldNotAuthorized))), true, e.approved)
  {
    hide LedgerInv, Checkout, Trim, FindHoldByKey, FindHold;
    RetryAfterRelease(s, c, e, h);
  }

  lemma CapturedAtOnce(s: Store, c: Command, e: Environment)
    requires GoodCommand(c)
    ensures var held := CreateHoldStep(s, HoldCommand(c), e.facts, e.createClock);
            held.result.Ok? && held.result.value.status == Captured ==>
              Checkout(s, c, e) ==
              SagaRun(held.store, Completed(held.result.value.id, c.ids.transaction, ""), false, false)
  {
    hide CreateHoldStep, GoodCommand;
  }

  lemma KeyedHoldAnswers(s: Store, c: Command, e: Environment, h: Hold)
    requires GoodCommand(c) && FindHoldByKey(s, c.wallet, Trim(c.key)) == Some(h)
    requires c.wallet in s.wallets && e.facts.operative && ValidCurrency(e.facts.currency)
    requires e.createClock.checked < c.expiresAt
    ensures CreateHoldStep(s, HoldCommand(c), e.facts, e.createClock) ==
            Step(s, if h.hash == Trim(c.hash) then Ok(h) else Err(Denied(HoldIdempotencyConflict)))
  {
    hide Trim, HoldKeyIndex, Fits64;
  }
}
