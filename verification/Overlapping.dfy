/** Checkouts whose steps overlap with other attempts and with anybody else's operations. */
module Overlapping {
  import opened Prelude
  import opened Money
  import opened Transactions
  import opened Ledger
  import opened Balances
  import opened Bookkeeping
  import opened Accounting
  import opened HoldUseCases
  import opened Saga
  import opened Checkouts
  import Interference
  import Histories

  // ---------------------------------------------------------------- one run amid others' operations

  /** An operation of somebody else between two steps. */
  datatype Foreigner = Foreigner(op: Op, clock: Clock, fits: bool)

  function Amid(s: Store, others: seq<Foreigner>): Store {
    if others == [] then s
    else
      var last := others[|others| - 1];
      OutcomeWith(Amid(s, others[..|others| - 1]), last.op, last.clock, last.fits).store
  }

  /** A run whose services answer late: others commit before it acts on its hold, and again before it
      compensates a failed capture. */
  function CheckoutAmid(s: Store, c: Command, e: Environment, first: seq<Foreigner>, second: seq<Foreigner>): SagaRun {
    match CommandFault(c)
    case Some(fault) => SagaRun(s, Failed(fault), false, false)
    case None =>
      var held := CreateHoldStep(s, HoldCommand(c), e.facts, e.createClock);
      match held.result
      case Err(cause) => SagaRun(held.store, Failed(AuthorizationFailed(cause)), false, false)
      case Ok(h) =>
        if h.status == Captured then SagaRun(held.store, Completed(h.id, c.ids.transaction, ""), false, false)
        else
          var later := Amid(held.store, first);
          if !e.approved then Compensated(later, h.id, e, AntiFraudRejected, false)
          else if !e.paid then Compensated(later, h.id, e, ExternalPaymentFailed, true)
          else
            var captured :=
              CaptureHoldStep(later, SettleCommand(c, h.id), e.captureOperative, e.captureAt, e.captureClock);
            match captured.result
            case Ok(tx) => SagaRun(captured.store, Completed(h.id, tx.id, e.gatewayId), true, true)
            case Err(cause) => Compensated(Amid(captured.store, second), h.id, e, CaptureFailed(cause), true)
  }

  predicate LeavesAlone(others: seq<Foreigner>, id: Id) {
    forall i :: 0 <= i < |others| ==> WellFormed(others[i].op) && !Histories.Ends(others[i].op, id)
  }

  lemma OneLeavesHold(s: Store, o: Foreigner, id: Id)
    requires WellFormed(o.op) && !Histories.Ends(o.op, id) && FindHold(s, id).Some?
    ensures FindHold(OutcomeWith(s, o.op, o.clock, o.fits).store, id) == FindHold(s, id)
  {
    hide HoldIndex, PostOutcome, SetStatus, WellFormed, FindHoldByKey, Fits64;
    match o.op {
      case Post(tx, key, hash) => PostKeepsHolds(s, tx, key, hash, o.fits, id);
      case Authorize(h) => Interference.FindAfterAppend(s, h, id);
      case Capture(other, tx, key, hash) =>
        PostKeepsHolds(s, tx, key, hash, o.fits, id);
        Interference.FindAfterStatus(PostOutcome(s, tx, key, hash, o.fits).store, other, Captured, id);
      case Release(other) => Interference.FindAfterStatus(s, other, Released, id);
      case Expire(other) => Interference.FindAfterStatus(s, other, Expired, id);
    }
  }

  lemma PostKeepsHolds(s: Store, tx: Transaction, key: string, hash: string, fits: bool, id: Id)
    ensures FindHold(PostOutcome(s, tx, key, hash, fits).store, id) == FindHold(s, id)
  {
    hide HoldIndex, Insertable, TouchedWallets, CheckKey;
  }

  lemma {:induction false} AmidKeepsHold(s: Store, others: seq<Foreigner>, id: Id)
    requires LeavesAlone(others, id) && FindHold(s, id).Some?
    ensures FindHold(Amid(s, others), id) == FindHold(s, id)
  {
    hide FindHold, OutcomeWith, WellFormed, Histories.Ends;
    if others != [] {
      var n := |others| - 1;
      AmidKeepsHold(s, others[..n], id);
      OneLeavesHold(Amid(s, others[..n]), others[n], id);
    }
  }

  /** As long as nobody else ends its hold, a run among any other operations ends as one by itself: completed
      with the hold captured, failed after authorization with it released, or saying that compensation failed. */
  lemma {:induction false} SagaOutcomeAmid(
    s: Store, c: Command, e: Environment, first: seq<Foreigner>, second: seq<Foreigner>)
    requires LedgerInv(s)
    requires var held := CreateHoldStep(s, HoldCommand(c), e.facts, e.createClock);
             held.result.Ok? ==> LeavesAlone(first, held.result.value.id) && LeavesAlone(second, held.result.value.id)
    ensures var run := CheckoutAmid(s, c, e, first, second);
            var held := CreateHoldStep(s, HoldCommand(c), e.facts, e.createClock);
            && (run.result.Completed? ==>
                  && held.result.Ok?
                  && run.result == Completed(held.result.value.id, c.ids.transaction,
                                             if run.askedGateway then e.gatewayId else "")
                  && FindHold(run.store, held.result.value.id).Some?
                  && FindHold(run.store, held.result.value.id).value.status == Captured)
            && (run.result.Failed? && AfterAuthorization(run.result.failure) ==>
                  && held.result.Ok?
                  && FindHold(run.store, held.result.value.id) == Some(held.result.value.(status := Released)))
            && (run.result.Failed? && held.result.Ok? && CommandFault(c) == None ==>
                  AfterAuthorization(run.result.failure) || run.result.failure.CompensationFailed?)
  {
    hide LedgerInv, FindHold, CreateHoldStep, CaptureHoldStep, EndHoldStep, SetStatus, LeavesAlone, Amid, Trim;
    var held := CreateHoldStep(s, HoldCommand(c), e.facts, e.createClock);
    if CommandFault(c) == None && held.result.Ok? {
      var h := held.result.value;
      CreateStepKeeps(s, HoldCommand(c), e.facts, e.createClock);
      HeldIsStored(s, c, e);
      FoundById(held.store, c.wallet, Trim(c.key));
      AmidKeepsHold(held.store, first, h.id);
      var later := Amid(held.store, first);
      ReleaseStepEnds(later, h.id, e.releaseClock);
      CaptureStepEnds(later, SettleCommand(c, h.id), e.captureOperative, e.captureAt, e.captureClock);
      AmidKeepsHold(later, second, h.id);
      ReleaseStepEnds(Amid(later, second), h.id, e.releaseClock);
    }
  }

  // ---------------------------------------------------------------- overlapping attempts

  /** One database step of some attempt at the checkout, or one operation of somebody else. Attempts that run at
      the same time are any sequence of such steps: each acts on the hold stored under the checkout's key. What a
      step read before it got its locks may be out of date, so its clock and the result of its balance test are
      inputs. */
  datatype SagaStep =
    | MakeHold(currency: string, expiresAt: Time, clock: Clock, fits: bool)
    | Settle(clock: Clock, fits: bool)
    | GiveBack(clock: Clock)
    | Elsewhere(foreigner: Foreigner)

  function OwnHold(s: Store, c: Command): Option<Hold> {
    FindHoldByKey(s, c.wallet, Trim(c.key))
  }

  /** The checks of a capture request that do not depend on when they are made. */
  predicate Settles(s: Store, c: Command, h: Hold) {
    && FindHold(s, h.id) == Some(h) && h.wallet in s.wallets
    && s.wallets[h.wallet] != 0 && s.wallets[h.wallet] != c.settlementAccount && Trim(c.description) != ""
  }

  function HoldOp(c: Command, currency: string, expiresAt: Time): Op {
    Authorize(NewHold(HoldCommand(Retry(c, expiresAt)), currency))
  }

  function StepStore(s: Store, c: Command, step: SagaStep): Store {
    match step
    case MakeHold(currency, expiresAt, clock, fits) =>
      if !ValidCurrency(currency) then s else OutcomeWith(s, HoldOp(c, currency, expiresAt), clock, fits).store
    case Settle(clock, fits) =>
      (match OwnHold(s, c)
       case None => s
       case Some(h) => if Settles(s, c, h) then OutcomeWith(s, SettleOp(s, c, h), clock, fits).store else s)
    case GiveBack(clock) =>
      (match OwnHold(s, c)
       case None => s
       case Some(h) => OutcomeWith(s, Release(h.id), clock, true).store)
    case Elsewhere(o) => OutcomeWith(s, o.op, o.clock, o.fits).store
  }

  function Steps(s: Store, c: Command, steps: seq<SagaStep>): Store {
    if steps == [] then s else StepStore(Steps(s, c, steps[..|steps| - 1]), c, steps[|steps| - 1])
  }

  /** What the attempts' own steps did, in sum, to the booked balance of an account. */
  function StepEffects(s: Store, c: Command, steps: seq<SagaStep>, a: Id): int {
    if steps == [] then 0
    else
      var before, last := Steps(s, c, steps[..|steps| - 1]), steps[|steps| - 1];
      StepEffects(s, c, steps[..|steps| - 1], a) +
      if last.Elsewhere? then 0 else LedgerBalance(StepStore(before, c, last), a) - LedgerBalance(before, a)
  }

  predicate ForeignSteps(c: Command, steps: seq<SagaStep>) {
    forall i :: 0 <= i < |steps| && steps[i].Elsewhere? ==> Foreign(c, steps[i].foreigner.op)
  }

  /** The use cases on the checkout's own data are such steps, whose balance test reads the present database. */
  lemma UseCasesAreSteps(s: Store, c: Command, w: WalletFacts, operative: bool, at: Time, clock: Clock, h: Hold)
    requires CheckoutInv(s, c) && CommandFault(c) == None
    ensures var made := CreateHoldStep(s, HoldCommand(c), w, clock).store;
            made == s || made == StepStore(s, c, MakeHold(w.currency, c.expiresAt, Clock(clock.began, clock.began),
                                                          Fits64(s, HoldOp(c, w.currency, c.expiresAt), clock.began)))
    ensures var settled := CaptureHoldStep(s, SettleCommand(c, h.id), operative, at, clock).store;
            || OwnHold(s, c) != Some(h) || settled == s
            || (Settles(s, c, h)
                && settled == StepStore(s, c, Settle(clock, Fits64(s, SettleOp(s, c, h), clock.began))))
    ensures OwnHold(s, c) == Some(h) ==>
              EndHoldStep(s, h.id, Released, clock).store == StepStore(s, c, GiveBack(clock))
  {
    hide LedgerInv, Fits64, HoldIndex, HoldKeyIndex, Trim, PostOutcome, SetStatus, AuthorizeOutcome, ValidCurrency;
    if OwnHold(s, c) == Some(h) {
      OwnHoldById(s, c);
      StoredIdNotZero(s, h.id);
    }
    assert Retry(c, c.expiresAt) == c;
  }

  lemma MakeHoldKeeps(s: Store, c: Command, currency: string, expiresAt: Time, clock: Clock, fits: bool, a: Id)
    requires CheckoutInv(s, c) && CommandFault(c) == None
    ensures var s' := StepStore(s, c, MakeHold(currency, expiresAt, clock, fits));
            && CheckoutInv(s', c) && s'.wallets == s.wallets && s'.keys == s.keys
            && LedgerBalance(s', a) == LedgerBalance(s, a)
  {
    hide LedgerInv, Trim, CaptureKey, LedgerBalance, FindHold, FindHoldByKey, ValidCurrency;
    if ValidCurrency(currency) {
      var op := HoldOp(c, currency, expiresAt);
      OutcomeKeeps(s, op, clock, fits);
      Interference.FindByKeyAfterAppend(s, op.hold, c.wallet, Trim(c.key));
      SameBalance(s, OutcomeWith(s, op, clock, fits).store, a);
    }
  }

  lemma OwnHoldById(s: Store, c: Command)
    requires CheckoutInv(s, c) && OwnHold(s, c).Some?
    ensures var h := OwnHold(s, c).value; FindHold(s, h.id) == Some(h) && h.wallet == c.wallet
  {
    hide LedgerInv, Trim;
    FoundById(s, c.wallet, Trim(c.key));
  }

  /** Only an authorized hold is settled, and its capture key is then new. */
  lemma DoneWasAuthorized(s: Store, c: Command, h: Hold, clock: Clock, fits: bool)
    requires CheckoutInv(s, c) && OwnHold(s, c) == Some(h) && Settles(s, c, h)
    requires OutcomeWith(s, SettleOp(s, c, h), clock, fits).verdict == Done
    ensures h.status == Authorized && CaptureKey(c) !in s.keys
  {
    hide LedgerInv, HoldIndex, HoldKeyIndex, Trim, PostOutcome, CaptureKey, Settlement;
  }

  lemma SettleOpWellFormed(s: Store, c: Command, h: Hold)
    requires CheckoutInv(s, c) && CommandFault(c) == None && Settles(s, c, h)
    ensures WellFormed(SettleOp(s, c, h))
  {
    hide LedgerInv, HoldIndex, HoldKeyIndex, Trim, CaptureKey, Settlement, Constructed;
    StoredHoldIsValid(s, h.id);
    SettlementConstructed(h, s.wallets[h.wallet], c.settlementAccount, c.ids, c.description);
  }

  lemma SettleKeeps(s: Store, c: Command, clock: Clock, fits: bool, a: Id)
    requires CheckoutInv(s, c) && CommandFault(c) == None
    ensures var s' := StepStore(s, c, Settle(clock, fits));
            && CheckoutInv(s', c) && s'.wallets == s.wallets && (CaptureKey(c) in s.keys ==> CaptureKey(c) in s'.keys)
            && LedgerBalance(s', a) == LedgerBalance(s, a) + if PaysBetween(s, s', c) then Paid(s, c, a) else 0
  {
    hide CheckoutInv, CommandFault, OutcomeWith, SettleOp, WellFormed, Trim, CaptureKey, LedgerBalance, FindHold,
         FindHoldByKey;
    if OwnHold(s, c).Some? && Settles(s, c, OwnHold(s, c).value) {
      var h := OwnHold(s, c).value;
      OwnHoldById(s, c);
      SettleOpWellFormed(s, c, h);
      NotDoneChangesNothing(s, SettleOp(s, c, h), clock, fits);
      if OutcomeWith(s, SettleOp(s, c, h), clock, fits).verdict == Done {
        DoneWasAuthorized(s, c, h, clock, fits);
        CapturePays(s, c, h, clock, fits, a);
      }
    }
  }

  lemma GiveBackKeeps(s: Store, c: Command, clock: Clock, a: Id)
    requires CheckoutInv(s, c)
    ensures var s' := StepStore(s, c, GiveBack(clock));
            && CheckoutInv(s', c) && s'.wallets == s.wallets && s'.keys == s.keys
            && LedgerBalance(s', a) == LedgerBalance(s, a)
  {
    hide LedgerInv, SetStatus, Trim, CaptureKey, LedgerBalance, Available, HoldIndex, HoldKeyIndex;
    if OwnHold(s, c).Some? {
      var id := OwnHold(s, c).value.id;
      OwnHoldById(s, c);
      OutcomeKeeps(s, Release(id), clock, true);
      Interference.FindByKeyAfterStatus(s, id, Released, c.wallet, Trim(c.key));
      StatusMoves(s, id, Released, a, 0);
      Interference.StatusKeepsTables(s, id, Released);
    }
  }

  lemma StepPays(s: Store, c: Command, step: SagaStep, a: Id)
    requires CheckoutInv(s, c) && CommandFault(c) == None && (step.Elsewhere? ==> Foreign(c, step.foreigner.op))
    ensures var s' := StepStore(s, c, step);
            && CheckoutInv(s', c) && s'.wallets == s.wallets && (CaptureKey(c) in s.keys ==> CaptureKey(c) in s'.keys)
            && (step.Elsewhere? ==> (CaptureKey(c) in s'.keys <==> CaptureKey(c) in s.keys))
            && (!step.Elsewhere? ==>
                  LedgerBalance(s', a) == LedgerBalance(s, a) + if PaysBetween(s, s', c) then Paid(s, c, a) else 0)
  {
    hide CheckoutInv, CommandFault, StepStore, CaptureKey, LedgerBalance, Foreign, Paid;
    match step {
      case MakeHold(currency, expiresAt, clock, fits) => MakeHoldKeeps(s, c, currency, expiresAt, clock, fits, a);
      case Settle(clock, fits) => SettleKeeps(s, c, clock, fits, a);
      case GiveBack(clock) => GiveBackKeeps(s, c, clock, a);
      case Elsewhere(o) =>
        OthersKeepCheckout(s, c, o.op, o.clock, o.fits);
        ElsewhereIs(s, c, o);
    }
  }

  lemma ElsewhereIs(s: Store, c: Command, o: Foreigner)
    ensures StepStore(s, c, Elsewhere(o)) == OutcomeWith(s, o.op, o.clock, o.fits).store
  {
    hide OutcomeWith;
  }

  /** Even attempts at one checkout that overlap, in any number and any interleaving of their steps with each other
      and with others' operations, debit the wallet at most once and by exactly the amount. */
  lemma {:induction false} OverlappingAttemptsPayOnce(s: Store, c: Command, steps: seq<SagaStep>, a: Id)
    requires LedgerInv(s) && CommandFault(c) == None && ForeignSteps(c, steps)
    requires OwnHold(s, c) == None && CaptureKey(c) !in s.keys
    ensures CheckoutInv(Steps(s, c, steps), c) && Steps(s, c, steps).wallets == s.wallets
    ensures StepEffects(s, c, steps, a) == if CaptureKey(c) in Steps(s, c, steps).keys then Paid(s, c, a) else 0
  {
    hide LedgerInv, StepStore, Foreign, Trim, CaptureKey, FindHoldByKey, LedgerBalance, CommandFault;
    if steps != [] {
      var n := |steps| - 1;
      assert ForeignSteps(c, steps[..n]);
      OverlappingAttemptsPayOnce(s, c, steps[..n], a);
      StepPays(Steps(s, c, steps[..n]), c, steps[n], a);
    }
  }
}
