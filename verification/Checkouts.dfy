/** Sequences of runs of one checkout, with any other operations committed between them. */
module Checkouts {
  import opened Prelude
  import opened Transactions
  import opened Ledger
  import opened Balances
  import opened Bookkeeping
  import opened Accounting
  import opened HoldUseCases
  import opened Saga
  import Interference
  import Histories

  // ---------------------------------------------------------------- one failed run

  lemma NewHoldStored(s: Store, c: Command, e: Environment)
    requires FindHoldByKey(s, c.wallet, Trim(c.key)) == None
    requires CreateHoldStep(s, HoldCommand(c), e.facts, e.createClock).result.Ok?
    ensures var held := CreateHoldStep(s, HoldCommand(c), e.facts, e.createClock);
            var h := NewHold(HoldCommand(c), e.facts.currency);
            && held.result == Ok(h) && held.store == s.(holds := s.holds + [h])
            && FindHold(s, h.id) == None && FindHold(held.store, h.id) == Some(h)
            && h.amount.amount == c.amount
  {
    hide HoldKeyIndex, HoldIndex, Fits64, Trim;
    var h := NewHold(HoldCommand(c), e.facts.currency);
    FoundAfterAppendAnyway(s, h);
    Interference.FindAfterAppend(s, h, h.id);
  }

  /** A run that makes a fresh hold and ends by releasing it leaves every account's booked and available
      balance, read at any instant, as it was before the run. */
  lemma {:induction false} FailedRunRestores(s: Store, c: Command, e: Environment, a: Id, t: Time)
    requires LedgerInv(s) && FindHoldByKey(s, c.wallet, Trim(c.key)) == None
    requires Checkout(s, c, e).result.Failed? && AfterAuthorization(Checkout(s, c, e).result.failure)
    ensures LedgerBalance(Checkout(s, c, e).store, a) == LedgerBalance(s, a)
    ensures Available(Checkout(s, c, e).store, a, t) == Available(s, a, t)
  {
    hide LedgerInv, FindHold, FindHoldByKey, AfterHold, CreateHoldStep, LedgerBalance, Available, SetStatus, Trim;
    NewHoldStored(s, c, e);
    var h := NewHold(HoldCommand(c), e.facts.currency);
    var held := s.(holds := s.holds + [h]);
    AfterHoldOutcome(held, h, c, e);
    HoldMoves(s, h, a, t);
    StatusMoves(held, h.id, Released, a, t);
  }

  /** A checkout whose hold was released or expired cannot be retried under its key: whatever the services
      answer, the run asks anti-fraud again, and the gateway too when anti-fraud approves, and ends by
      reporting a failed compensation, having written nothing. */
  lemma {:induction false} RetryAfterRelease(s: Store, c: Command, e: Environment, h: Hold)
    requires LedgerInv(s) && FindHoldByKey(s, c.wallet, Trim(c.key)) == Some(h)
    requires h.hash == Trim(c.hash) && (h.status == Released || h.status == Expired)
    requires CommandFault(c) == None && CreateFault(s, HoldCommand(c), e.facts, e.createClock.checked) == None
    ensures Checkout(s, c, e) ==
            SagaRun(s, Failed(CompensationFailed(Denied(HoldNotAuthorized))), true, e.approved)
  {
    hide LedgerInv, HoldKeyIndex, HoldIndex, Fits64, Trim;
    FoundById(s, c.wallet, Trim(c.key));
    StoredIdNotZero(s, h.id);
  }

  lemma StoredIdNotZero(s: Store, id: Id)
    requires LedgerInv(s) && FindHold(s, id).Some?
    ensures id != 0
  {
    hide KeysMatchLog, OutboxComplete;
  }

  // ---------------------------------------------------------------- sequences of runs

  /** A run of the checkout, possibly with a later expiry, or one operation of somebody else. */
  datatype Event = Run(e: Environment, expiresAt: Time) | Others(op: Op, clock: Clock, fits: bool)

  /** A retry differs from the first attempt in nothing but the expiry it asks for. */
  function Retry(c: Command, expiresAt: Time): Command {
    c.(expiresAt := expiresAt)
  }

  function Next(s: Store, c: Command, event: Event): Store {
    match event
    case Run(e, expiresAt) => Checkout(s, Retry(c, expiresAt), e).store
    case Others(op, clock, fits) => OutcomeWith(s, op, clock, fits).store
  }

  function After(s: Store, c: Command, events: seq<Event>): Store {
    if events == [] then s else Next(After(s, c, events[..|events| - 1]), c, events[|events| - 1])
  }

  function CaptureKey(c: Command): string {
    Trim(c.key + ":capture")
  }

  /** Operations of others: well formed, and leaving this checkout's two idempotency keys alone. They may end
      its hold. */
  predicate Foreign(c: Command, op: Op) {
    && WellFormed(op)
    && (PostLike(op) ==> op.key != CaptureKey(c))
    && (op.Authorize? ==> !(op.hold.wallet == c.wallet && op.hold.key == Trim(c.key)))
  }

  predicate ForeignEvents(c: Command, events: seq<Event>) {
    forall i :: 0 <= i < |events| && events[i].Others? ==> Foreign(c, events[i].op)
  }

  /** What is known of a checkout between runs. */
  ghost predicate CheckoutInv(s: Store, c: Command) {
    && LedgerInv(s)
    && match FindHoldByKey(s, c.wallet, Trim(c.key))
       case None => CaptureKey(c) !in s.keys
       case Some(h) => h.amount.amount == c.amount && (CaptureKey(c) in s.keys ==> h.status == Captured)
  }

  /** The one payment: the amount leaves the wallet's account and reaches the settlement account. */
  function Paid(s: Store, c: Command, a: Id): int {
    if c.wallet in s.wallets && a == s.wallets[c.wallet] then -(c.amount as int)
    else if a == c.settlementAccount then c.amount
    else 0
  }

  /** The payment has been made between s and s'. */
  predicate PaysBetween(s: Store, s': Store, c: Command) {
    CaptureKey(c) !in s.keys && CaptureKey(c) in s'.keys
  }

  lemma OwnHoldOnly(s: Store, c: Command, e: Environment)
    requires CheckoutInv(s, c) && CommandFault(c) == None
    requires CreateHoldStep(s, HoldCommand(c), e.facts, e.createClock).result.Ok?
    ensures var held := CreateHoldStep(s, HoldCommand(c), e.facts, e.createClock);
            && CheckoutInv(held.store, c)
            && FindHoldByKey(held.store, c.wallet, Trim(c.key)) == Some(held.result.value)
            && FindHold(held.store, held.result.value.id) == Some(held.result.value)
            && held.store.keys == s.keys && held.store.wallets == s.wallets && held.store.log == s.log
            && c.wallet in s.wallets && held.result.value.wallet == c.wallet
  {
    hide LedgerInv, HoldKeyIndex, HoldIndex, Fits64, Trim, CaptureKey;
    HeldIsStored(s, c, e);
    CreateStepKeeps(s, HoldCommand(c), e.facts, e.createClock);
    FoundById(CreateHoldStep(s, HoldCommand(c), e.facts, e.createClock).store, c.wallet, Trim(c.key));
  }

  /** Releasing keeps what is known and moves no booked balance. */
  lemma CompensationKeeps(s: Store, c: Command, e: Environment, h: Hold, failure: SagaFailure, asked: bool, a: Id)
    requires CheckoutInv(s, c) && FindHold(s, h.id) == Some(h)
    ensures var s' := Compensated(s, h.id, e, failure, asked).store;
            && CheckoutInv(s', c) && s'.keys == s.keys && s'.wallets == s.wallets
            && LedgerBalance(s', a) == LedgerBalance(s, a)
  {
    hide LedgerInv, HoldKeyIndex, HoldIndex, Trim, CaptureKey, EndHoldStep, SetStatus, LedgerBalance;
    ReleaseStepEnds(s, h.id, e.releaseClock);
    if EndHoldStep(s, h.id, Released, e.releaseClock).result.Ok? {
      Bookkeeping.StatusKeeps(s, h.id, Released);
      Interference.FindByKeyAfterStatus(s, h.id, Released, c.wallet, Trim(c.key));
      StatusMoves(s, h.id, Released, a, 0);
      Interference.StatusKeepsTables(s, h.id, Released);
    }
  }

  function SettleOp(s: Store, c: Command, h: Hold): Op
    requires FindHold(s, h.id) == Some(h) && h.wallet in s.wallets
  {
    Capture(h.id, Settlement(h, s.wallets[h.wallet], c.settlementAccount, c.ids, c.description), CaptureKey(c),
            Trim(c.hash + ":capture"))
  }

  /** A capture that goes through on a hold not yet captured is a posting of its own, not a replay. */
  lemma CaptureIsDone(s: Store, c: Command, e: Environment, h: Hold)
    requires CheckoutInv(s, c) && FindHoldByKey(s, c.wallet, Trim(c.key)) == Some(h) == FindHold(s, h.id)
    requires h.status != Captured
    requires CaptureHoldStep(s, SettleCommand(c, h.id), e.captureOperative, e.captureAt, e.captureClock).result.Ok?
    ensures h.wallet in s.wallets && s.wallets[h.wallet] != c.settlementAccount && h.status == Authorized
    ensures CaptureKey(c) !in s.keys && WellFormed(SettleOp(s, c, h))
    ensures OutcomeWith(s, SettleOp(s, c, h), e.captureClock, Fits64(s, SettleOp(s, c, h), e.captureClock.began)) ==
            Outcome(CaptureHoldStep(s, SettleCommand(c, h.id), e.captureOperative, e.captureAt, e.captureClock).store,
                    Done)
  {
    hide LedgerInv, HoldKeyIndex, HoldIndex, Trim, Fits64, Insertable, Insert, SetStatus, Constructed;
    StoredHoldIsValid(s, h.id);
    SettlementConstructed(h, s.wallets[h.wallet], c.settlementAccount, c.ids, c.description);
  }

  lemma DoneRecordsKey(s: Store, c: Command, h: Hold, clock: Clock, fits: bool)
    requires FindHold(s, h.id) == Some(h) && h.wallet in s.wallets && CaptureKey(c) !in s.keys
    requires h.status == Authorized
    requires OutcomeWith(s, SettleOp(s, c, h), clock, fits).verdict == Done
    ensures var s' := OutcomeWith(s, SettleOp(s, c, h), clock, fits).store;
            && CaptureKey(c) in s'.keys && s'.wallets == s.wallets
            && s' == SetStatus(Insert(s, SettleOp(s, c, h).tx, CaptureKey(c), SettleOp(s, c, h).hash), h.id, Captured)
  {
    hide HoldIndex, Trim, Insertable, TouchedWallets, Settlement;
  }

  /** A capture that is done pays once, exactly, and leaves the checkout's hold captured, whatever its balance
      test read. */
  lemma CapturePays(s: Store, c: Command, h: Hold, clock: Clock, fits: bool, a: Id)
    requires CheckoutInv(s, c) && FindHoldByKey(s, c.wallet, Trim(c.key)) == Some(h) == FindHold(s, h.id)
    requires h.wallet == c.wallet && h.wallet in s.wallets && s.wallets[h.wallet] != c.settlementAccount
    requires h.status == Authorized && CaptureKey(c) !in s.keys && WellFormed(SettleOp(s, c, h))
    requires OutcomeWith(s, SettleOp(s, c, h), clock, fits).verdict == Done
    ensures var s' := OutcomeWith(s, SettleOp(s, c, h), clock, fits).store;
            && CheckoutInv(s', c) && s'.wallets == s.wallets && PaysBetween(s, s', c)
            && LedgerBalance(s', a) == LedgerBalance(s, a) + Paid(s, c, a)
  {
    hide LedgerInv, HoldKeyIndex, HoldIndex, Trim, CaptureKey, LedgerBalance, Available, SetStatus, OutcomeWith,
         WellFormed, Insert, Settlement;
    var op := SettleOp(s, c, h);
    DoneRecordsKey(s, c, h, clock, fits);
    OutcomeKeeps(s, op, clock, fits);
    CaptureSettles(s, h, c.settlementAccount, c.ids, c.description, CaptureKey(c), op.hash, clock, fits, a, 0);
    var posted := Insert(s, op.tx, op.key, op.hash);
    InsertKeepsHolds(s, op.tx, op.key, op.hash, h.id, c.wallet, Trim(c.key));
    Interference.FindByKeyAfterStatus(posted, h.id, Captured, c.wallet, Trim(c.key));
    Interference.FindAfterStatus(posted, h.id, Captured, h.id);
    FoundById(SetStatus(posted, h.id, Captured), c.wallet, Trim(c.key));
  }

  lemma CaptureStepPays(s: Store, c: Command, e: Environment, h: Hold, a: Id)
    requires CheckoutInv(s, c) && FindHoldByKey(s, c.wallet, Trim(c.key)) == Some(h) == FindHold(s, h.id)
    requires h.status != Captured && h.wallet == c.wallet
    requires CaptureHoldStep(s, SettleCommand(c, h.id), e.captureOperative, e.captureAt, e.captureClock).result.Ok?
    ensures var s' := CaptureHoldStep(s, SettleCommand(c, h.id), e.captureOperative, e.captureAt, e.captureClock).store;
            && CheckoutInv(s', c) && s'.wallets == s.wallets && PaysBetween(s, s', c)
            && LedgerBalance(s', a) == LedgerBalance(s, a) + Paid(s, c, a)
  {
    hide LedgerInv, HoldKeyIndex, HoldIndex, Trim, CaptureKey, CaptureHoldStep, LedgerBalance, SetStatus, Fits64,
         OutcomeWith, WellFormed, SettleOp, CheckoutInv;
    CaptureIsDone(s, c, e, h);
    CapturePays(s, c, h, e.captureClock, Fits64(s, SettleOp(s, c, h), e.captureClock.began), a);
  }

  lemma InsertKeepsHolds(s: Store, tx: Transaction, key: string, hash: string, id: Id, wallet: Id, holdKey: string)
    ensures FindHold(Insert(s, tx, key, hash), id) == FindHold(s, id)
    ensures FindHoldByKey(Insert(s, tx, key, hash), wallet, holdKey) == FindHoldByKey(s, wallet, holdKey)
  {
  }

  /** What a run does to booked balances: the payment, exactly when it is the run that records the capture. */
  lemma RunPaysOnce(s: Store, c: Command, e: Environment, a: Id)
    requires CheckoutInv(s, c)
    ensures var s' := Checkout(s, c, e).store;
            && CheckoutInv(s', c) && s'.wallets == s.wallets
            && (CaptureKey(c) in s.keys ==> CaptureKey(c) in s'.keys)
            && LedgerBalance(s', a) == LedgerBalance(s, a) + if PaysBetween(s, s', c) then Paid(s, c, a) else 0
  {
    hide CheckoutInv, FindHold, FindHoldByKey, Trim, CaptureKey, CaptureHoldStep, CreateHoldStep, EndHoldStep,
         Compensated;
    var held := CreateHoldStep(s, HoldCommand(c), e.facts, e.createClock);
    if CommandFault(c) == None {
      if held.result.Ok? {
        OwnHoldOnly(s, c, e);
        var h := held.result.value;
        SameBalance(s, held.store, a);
        CompensationKeeps(held.store, c, e, h, AntiFraudRejected, false, a);
        CompensationKeeps(held.store, c, e, h, ExternalPaymentFailed, true, a);
        var captured :=
          CaptureHoldStep(held.store, SettleCommand(c, h.id), e.captureOperative, e.captureAt, e.captureClock);
        CaptureStepEnds(held.store, SettleCommand(c, h.id), e.captureOperative, e.captureAt, e.captureClock);
        if captured.result.Err? {
          CompensationKeeps(held.store, c, e, h, CaptureFailed(captured.result.error), true, a);
        } else if h.status != Captured {
          CaptureStepPays(held.store, c, e, h, a);
        }
      } else {
        FaultChangesNothing(s, c, e);
      }
    }
  }

  lemma FaultChangesNothing(s: Store, c: Command, e: Environment)
    requires CheckoutInv(s, c) && CreateHoldStep(s, HoldCommand(c), e.facts, e.createClock).result.Err?
    ensures CreateHoldStep(s, HoldCommand(c), e.facts, e.createClock).store == s
  {
    hide LedgerInv, FindHoldByKey, CreateHoldStep;
    CreateStepKeeps(s, HoldCommand(c), e.facts, e.createClock);
  }

  lemma SameBalance(s: Store, s': Store, a: Id)
    requires s'.log == s.log
    ensures LedgerBalance(s', a) == LedgerBalance(s, a)
  {
  }

  lemma PostKeepsCheckout(s: Store, c: Command, tx: Transaction, key: string, hash: string, fits: bool)
    requires key != CaptureKey(c)
    ensures var s' := PostOutcome(s, tx, key, hash, fits).store;
            && (CaptureKey(c) in s'.keys <==> CaptureKey(c) in s.keys)
            && s'.holds == s.holds
  {
    hide Trim, CaptureKey, Insertable, TouchedWallets;
  }

  /** Operations of others leave the two keys alone; whatever they do to the hold keeps what is known. */
  lemma OthersKeepCheckout(s: Store, c: Command, op: Op, clock: Clock, fits: bool)
    requires CheckoutInv(s, c) && Foreign(c, op)
    ensures var s' := OutcomeWith(s, op, clock, fits).store;
            && CheckoutInv(s', c) && s'.wallets == s.wallets
            && (CaptureKey(c) in s'.keys <==> CaptureKey(c) in s.keys)
  {
    hide LedgerInv, HoldKeyIndex, HoldIndex, Trim, CaptureKey, PostOutcome, SetStatus, WellFormed, EndHoldStep;
    OutcomeKeeps(s, op, clock, fits);
    ReferenceDataFixed(s, op, clock, fits);
    var key := Trim(c.key);
    match op {
      case Post(tx, k, hash) => PostKeepsCheckout(s, c, tx, k, hash, fits);
      case Authorize(h) => Interference.FindByKeyAfterAppend(s, h, c.wallet, key);
      case Capture(id, tx, k, hash) =>
        PostKeepsCheckout(s, c, tx, k, hash, fits);
        var posted := PostOutcome(s, tx, k, hash, fits).store;
        Interference.FindByKeyAfterStatus(posted, id, Captured, c.wallet, key);
        Interference.StatusKeepsTables(posted, id, Captured);
      case Release(id) =>
        Interference.FindByKeyAfterStatus(s, id, Released, c.wallet, key);
        Interference.StatusKeepsTables(s, id, Released);
      case Expire(id) =>
        Interference.FindByKeyAfterStatus(s, id, Expired, c.wallet, key);
        Interference.StatusKeepsTables(s, id, Expired);
    }
  }

  /** The sum of what the runs among the events did to the booked balance of an account. */
  function RunEffects(s: Store, c: Command, events: seq<Event>, a: Id): int {
    if events == [] then 0
    else
      var before, last := After(s, c, events[..|events| - 1]), events[|events| - 1];
      RunEffects(s, c, events[..|events| - 1], a) +
      if last.Run? then LedgerBalance(Next(before, c, last), a) - LedgerBalance(before, a) else 0
  }

  lemma NextKeeps(s: Store, c: Command, event: Event, a: Id)
    requires CheckoutInv(s, c) && (event.Others? ==> Foreign(c, event.op))
    ensures var s' := Next(s, c, event);
            && CheckoutInv(s', c) && s'.wallets == s.wallets
            && (CaptureKey(c) in s.keys ==> CaptureKey(c) in s'.keys)
            && (event.Run? ==>
                  LedgerBalance(s', a) == LedgerBalance(s, a) + if PaysBetween(s, s', c) then Paid(s, c, a) else 0)
            && (event.Others? ==> (CaptureKey(c) in s'.keys <==> CaptureKey(c) in s.keys))
  {
    hide LedgerInv, Checkout, OutcomeWith, Trim, LedgerBalance, Foreign, FindHoldByKey;
    match event {
      case Run(e, expiresAt) =>
        var d := Retry(c, expiresAt);
        SameKnowledge(s, c, d);
        RunPaysOnce(s, d, e, a);
        SameKnowledge(Next(s, c, event), c, d);
      case Others(op, clock, fits) => OthersKeepCheckout(s, c, op, clock, fits);
    }
  }

  lemma SameKnowledge(s: Store, c: Command, d: Command)
    requires d == Retry(c, d.expiresAt)
    ensures CheckoutInv(s, c) <==> CheckoutInv(s, d)
    ensures CaptureKey(c) == CaptureKey(d)
  {
  }

  /** Any number of attempts at one checkout, with anybody else's operations committed between them, debit the
      wallet at most once and by exactly the amount: together the attempts move each account's booked balance by
      the one payment if the capture's key has been recorded, and by nothing if it has not. */
  lemma {:induction false} CheckoutPaysAtMostOnce(s: Store, c: Command, events: seq<Event>, a: Id)
    requires LedgerInv(s) && ForeignEvents(c, events)
    requires FindHoldByKey(s, c.wallet, Trim(c.key)) == None && CaptureKey(c) !in s.keys
    ensures CheckoutInv(After(s, c, events), c) && After(s, c, events).wallets == s.wallets
    ensures RunEffects(s, c, events, a) == if CaptureKey(c) in After(s, c, events).keys then Paid(s, c, a) else 0
  {
    hide LedgerInv, Next, Foreign, Trim, CaptureKey, FindHoldByKey, LedgerBalance;
    if events != [] {
      var n := |events| - 1;
      assert ForeignEvents(c, events[..n]);
      CheckoutPaysAtMostOnce(s, c, events[..n], a);
      NextKeeps(After(s, c, events[..n]), c, events[n], a);
    }
  }

  // ---------------------------------------------------------------- after completion

  lemma EndStepGrows(s: Store, id: Id, clock: Clock)
    ensures Histories.Grows(s, EndHoldStep(s, id, Released, clock).store)
  {
    hide Histories.Grows, OutcomeWith;
    Histories.GrowsReflexive(s);
    Histories.OutcomeGrows(s, Release(id), clock, Fits64(s, Release(id), clock.began));
  }

  lemma CreateStepGrows(s: Store, c: CreateHoldCommand, w: WalletFacts, clock: Clock)
    ensures Histories.Grows(s, CreateHoldStep(s, c, w, clock).store)
  {
    hide Histories.Grows, OutcomeWith, Fits64, Trim, FindHoldByKey;
    Histories.GrowsReflexive(s);
    var op := Authorize(NewHold(c, w.currency));
    Histories.OutcomeGrows(s, op, Clock(clock.began, clock.began), Fits64(s, op, clock.began));
  }

  lemma CaptureStepGrows(s: Store, c: CaptureHoldCommand, operative: bool, at: Time, clock: Clock)
    ensures Histories.Grows(s, CaptureHoldStep(s, c, operative, at, clock).store)
  {
    hide Histories.Grows, OutcomeWith, Fits64, Trim, Settlement, FindHold;
    Histories.GrowsReflexive(s);
    if CaptureFault(s, c, operative, at) == None {
      var op := Capture(c.holdId, SettlementOf(s, c), Trim(c.key), Trim(c.hash));
      Histories.OutcomeGrows(s, op, clock, Fits64(s, op, clock.began));
    }
  }

  lemma AfterHoldGrows(s: Store, h: Hold, c: Command, e: Environment)
    ensures Histories.Grows(s, AfterHold(s, h, c, e).store)
  {
    hide Histories.Grows, CaptureHoldStep, EndHoldStep;
    Histories.GrowsReflexive(s);
    EndStepGrows(s, h.id, e.releaseClock);
    var captured := CaptureHoldStep(s, SettleCommand(c, h.id), e.captureOperative, e.captureAt, e.captureClock).store;
    CaptureStepGrows(s, SettleCommand(c, h.id), e.captureOperative, e.captureAt, e.captureClock);
    EndStepGrows(captured, h.id, e.releaseClock);
    Histories.GrowsTransitive(s, captured, EndHoldStep(captured, h.id, Released, e.releaseClock).store);
  }

  lemma NextGrows(s: Store, c: Command, event: Event)
    ensures Histories.Grows(s, Next(s, c, event))
  {
    hide Histories.Grows, OutcomeWith, CreateHoldStep, AfterHold, Trim;
    Histories.GrowsReflexive(s);
    match event {
      case Run(e, expiresAt) =>
        var d := Retry(c, expiresAt);
        var held := CreateHoldStep(s, HoldCommand(d), e.facts, e.createClock);
        CreateStepGrows(s, HoldCommand(d), e.facts, e.createClock);
        if held.result.Ok? {
          AfterHoldGrows(held.store, held.result.value, d, e);
          Histories.GrowsTransitive(s, held.store, AfterHold(held.store, held.result.value, d, e).store);
        }
      case Others(op, clock, fits) => Histories.OutcomeGrows(s, op, clock, fits);
    }
  }

  lemma {:induction false} AfterGrows(s: Store, c: Command, events: seq<Event>, k: nat)
    requires k <= |events|
    ensures Histories.Grows(After(s, c, events[..k]), After(s, c, events))
  {
    hide Histories.Grows, Next;
    if k == |events| {
      assert events[..k] == events;
      Histories.GrowsReflexive(After(s, c, events));
    } else {
      var n := |events| - 1;
      assert events[..n][..k] == events[..k];
      AfterGrows(s, c, events[..n], k);
      NextGrows(After(s, c, events[..n]), c, events[n]);
      Histories.GrowsTransitive(After(s, c, events[..k]), After(s, c, events[..n]), After(s, c, events));
    }
  }

  /** The stored hold of the checkout is captured, under the command's hash. */
  predicate Finished(s: Store, c: Command) {
    && FindHoldByKey(s, c.wallet, Trim(c.key)).Some?
    && FindHoldByKey(s, c.wallet, Trim(c.key)).value.status == Captured
    && FindHoldByKey(s, c.wallet, Trim(c.key)).value.hash == Trim(c.hash)
  }

  lemma FinishedStays(s: Store, s': Store, c: Command)
    requires Histories.Grows(s, s') && Finished(s, c)
    ensures Finished(s', c)
  {
    hide HoldKeyIndex, Trim;
    var key := Trim(c.key);
    var i := HoldKeyIndex(s.holds, c.wallet, key);
    forall k | 0 <= k < i ensures !(s'.holds[k].wallet == c.wallet && s'.holds[k].key == key) {
      assert Interference.SameHold(s.holds[k], s'.holds[k]);
    }
    Interference.HoldKeyIndexIs(s'.holds, c.wallet, key, i);
  }

  lemma CompletedIsFinished(s: Store, c: Command, e: Environment)
    requires LedgerInv(s) && Checkout(s, c, e).result.Completed?
    ensures Finished(Checkout(s, c, e).store, c)
  {
    hide LedgerInv, CreateHoldStep, AfterHold, Trim, FindHold, HoldKeyIndex, Histories.Grows;
    SagaOutcome(s, c, e);
    HeldIsStored(s, c, e);
    var held := CreateHoldStep(s, HoldCommand(c), e.facts, e.createClock);
    CreateStepKeeps(s, HoldCommand(c), e.facts, e.createClock);
    FoundById(held.store, c.wallet, Trim(c.key));
    AfterHoldGrows(held.store, held.result.value, c, e);
    KeyedStays(held.store, Checkout(s, c, e).store, c, held.result.value);
  }

  /** A hold found by its key stays the one found by that key, and its id still finds it. */
  lemma KeyedStays(s: Store, s': Store, c: Command, h: Hold)
    requires LedgerInv(s) && Histories.Grows(s, s') && FindHoldByKey(s, c.wallet, Trim(c.key)) == Some(h)
    requires FindHold(s, h.id) == Some(h)
    ensures FindHold(s', h.id).Some? && FindHoldByKey(s', c.wallet, Trim(c.key)) == FindHold(s', h.id)
    ensures FindHold(s', h.id).value.hash == h.hash
  {
    hide HoldKeyIndex, HoldIndex, Trim, KeysMatchLog, OutboxComplete, SoundRows, SoundReversals, KnownAccounts;
    var key := Trim(c.key);
    var i := HoldKeyIndex(s.holds, c.wallet, key);
    var j := HoldIndex(s.holds, h.id);
    assert i == j;
    forall k | 0 <= k <= i ensures s'.holds[k].wallet == s.holds[k].wallet && s'.holds[k].key == s.holds[k].key &&
      s'.holds[k].id == s.holds[k].id && s'.holds[k].hash == s.holds[k].hash
    {
      assert Interference.SameHold(s.holds[k], s'.holds[k]);
    }
    Interference.HoldKeyIndexIs(s'.holds, c.wallet, key, i);
    Interference.HoldIndexIs(s'.holds, h.id, i);
  }

  lemma FinishedAsksNobody(s: Store, c: Command, e: Environment)
    requires Finished(s, c)
    ensures !Checkout(s, c, e).askedFraud && !Checkout(s, c, e).askedGateway && Checkout(s, c, e).store == s
    ensures Checkout(s, c, e).result.Completed? || CommandFault(c).Some? ||
            CreateFault(s, HoldCommand(c), e.facts, e.createClock.checked).Some?
  {
    hide HoldKeyIndex, Trim, Fits64;
  }

  /** Once a run has completed, no later attempt at the checkout asks anti-fraud or the gateway, or writes
      anything, whatever others have committed in between. */
  lemma {:induction false} CompletedAsksNobodyAgain(s: Store, c: Command, events: seq<Event>, i: nat, j: nat)
    requires LedgerInv(s) && ForeignEvents(c, events)
    requires FindHoldByKey(s, c.wallet, Trim(c.key)) == None && CaptureKey(c) !in s.keys
    requires i < j < |events| && events[i].Run? && events[j].Run?
    requires Checkout(After(s, c, events[..i]), Retry(c, events[i].expiresAt), events[i].e).result.Completed?
    ensures var later := After(s, c, events[..j]);
            var run := Checkout(later, Retry(c, events[j].expiresAt), events[j].e);
            !run.askedFraud && !run.askedGateway && run.store == later
  {
    hide LedgerInv, Checkout, OutcomeWith, Trim, FindHoldByKey, Foreign, CaptureKey, Histories.Grows;
    var before := After(s, c, events[..i]);
    CheckoutPaysAtMostOnce(s, c, events[..i], 0);
    CompletedIsFinished(before, Retry(c, events[i].expiresAt), events[i].e);
    assert events[..i + 1][..i] == events[..i];
    assert events[..j][..i + 1] == events[..i + 1];
    AfterGrows(s, c, events[..j], i + 1);
    FinishedStays(After(s, c, events[..i + 1]), After(s, c, events[..j]), Retry(c, events[i].expiresAt));
    FinishedAsksNobody(After(s, c, events[..j]), Retry(c, events[j].expiresAt), events[j].e);
  }
}
