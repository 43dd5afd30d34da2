/** The wallet use cases around holds: what they check before they call the repository, and what they hand it. */
module HoldUseCases {
  import opened Prelude
  import opened Money
  import opened Journal
  import opened Transactions
  import opened Ledger
  import opened Balances
  import opened Bookkeeping
  import opened Accounting
  import opened HoldRepository
  import Interference

  datatype HoldFailure =
    | Invalid(error: DomainError)
    | EmptyIdempotencyKey
    | EmptyRequestHash
    | WalletInoperative
    | InvalidHoldExpiration
    | CaptureSameAccount
    | Denied(refusal: Refusal)

  datatype CreateHoldCommand = CreateHoldCommand(
    id: Id, wallet: Id, amount: int64, expiresAt: Time, key: string, hash: string)

  datatype CaptureHoldCommand = CaptureHoldCommand(
    holdId: Id, settlementAccount: Id, ids: SettlementIds, description: string, key: string, hash: string)

  /** The wallet's currency and whether it can operate, as the use case reads them outside any lock. */
  datatype WalletFacts = WalletFacts(currency: string, operative: bool)

  /** The database after a use case, and what it answered. */
  datatype Step<+T> = Step(store: Store, result: Result<T, HoldFailure>)

  function NewHold(c: CreateHoldCommand, currency: string): Hold {
    Hold(c.id, c.wallet, Money(currency, c.amount), Authorized, Trim(c.key), Trim(c.hash), c.expiresAt)
  }

  /** Why a hold request never reaches the repository. */
  function CreateFault(s: Store, c: CreateHoldCommand, w: WalletFacts, now: Time): Option<HoldFailure> {
    if c.id == 0 || c.wallet == 0 then Some(Invalid(InvalidId))
    else if c.amount < 0 then Some(Invalid(AmountMustNotBeNegative))
    else if c.amount == 0 then Some(Invalid(AmountMustBePositive))
    else if Trim(c.key) == "" then Some(EmptyIdempotencyKey)
    else if Trim(c.hash) == "" then Some(EmptyRequestHash)
    else if c.wallet !in s.wallets then Some(Denied(WalletNotFound))
    else if !w.operative then Some(WalletInoperative)
    else if !ValidCurrency(w.currency) then Some(Invalid(InvalidCurrency))
    else if !(now < c.expiresAt) then Some(InvalidHoldExpiration)
    else None
  }

  function CreateHoldStep(s: Store, c: CreateHoldCommand, w: WalletFacts, clock: Clock): Step<Hold> {
    match CreateFault(s, c, w, clock.checked)
    case Some(fault) => Step(s, Err(fault))
    case None =>
      var h := NewHold(c, w.currency);
      var outcome := Apply64(s, Authorize(h), Clock(clock.began, clock.began));
      match outcome.verdict
      case Refused(refusal) => Step(outcome.store, Err(Denied(refusal)))
      case _ =>
        (match FindHoldByKey(outcome.store, h.wallet, h.key)
         case Some(stored) => Step(outcome.store, Ok(stored))
         case None => Step(outcome.store, Ok(h)))
  }

  method CreateHold(holds: HoldRepository, c: CreateHoldCommand, w: WalletFacts, clock: Clock)
    returns (r: Result<Hold, HoldFailure>)
    requires holds.db.Valid()
    modifies holds.db
    ensures holds.db.Valid()
    ensures Step(holds.db.View(), r) == CreateHoldStep(old(holds.db.View()), c, w, clock)
  {
    hide LedgerInv, Fits64, HoldKeyIndex, AuthorizeOutcome;
    if c.id == 0 || c.wallet == 0 { return Err(Invalid(InvalidId)); }
    if c.amount < 0 { return Err(Invalid(AmountMustNotBeNegative)); }
    if c.amount == 0 { return Err(Invalid(AmountMustBePositive)); }
    if Trim(c.key) == "" { return Err(EmptyIdempotencyKey); }
    if Trim(c.hash) == "" { return Err(EmptyRequestHash); }
    if c.wallet !in holds.db.wallets { return Err(Denied(WalletNotFound)); }
    if !w.operative { return Err(WalletInoperative); }
    var money := NewMoney(w.currency, c.amount);
    if money.Err? { return Err(Invalid(money.error)); }
    if !(clock.checked < c.expiresAt) { return Err(InvalidHoldExpiration); }
    var h := NewHold(c, w.currency);
    var verdict, stored := holds.Authorize(h, clock.began);
    if verdict.Refused? { return Err(Denied(verdict.refusal)); }
    return if stored.Some? then Ok(stored.value) else Ok(h);
  }

  /** Why a capture request never reaches the repository, at being the use case's own clock reading. */
  function CaptureFault(s: Store, c: CaptureHoldCommand, operative: bool, at: Time): Option<HoldFailure> {
    if c.holdId == 0 || c.settlementAccount == 0 || !Supplied(c.ids) then Some(Invalid(InvalidId))
    else if Trim(c.key) == "" then Some(EmptyIdempotencyKey)
    else if Trim(c.hash) == "" then Some(EmptyRequestHash)
    else match FindHold(s, c.holdId)
      case None => Some(Denied(HoldNotFound))
      case Some(h) =>
        if h.wallet !in s.wallets then Some(Denied(WalletNotFound))
        else if !operative then Some(WalletInoperative)
        else if s.wallets[h.wallet] == c.settlementAccount then Some(CaptureSameAccount)
        else if h.status == Authorized && !(at < h.expiresAt) then Some(Denied(HoldExpired))
        else if h.status != Authorized && h.status != Captured then Some(Denied(HoldNotAuthorized))
        else if s.wallets[h.wallet] == 0 then Some(Invalid(InvalidId))
        else if Trim(c.description) == "" then Some(Invalid(EmptyDescription))
        else None
  }

  function SettlementOf(s: Store, c: CaptureHoldCommand): (tx: Transaction)
    requires FindHold(s, c.holdId).Some? && FindHold(s, c.holdId).value.wallet in s.wallets
  {
    var h := FindHold(s, c.holdId).value;
    Settlement(h, s.wallets[h.wallet], c.settlementAccount, c.ids, c.description)
  }

  function CaptureHoldStep(s: Store, c: CaptureHoldCommand, operative: bool, at: Time, clock: Clock)
    : Step<Transaction>
  {
    match CaptureFault(s, c, operative, at)
    case Some(fault) => Step(s, Err(fault))
    case None =>
      var tx := SettlementOf(s, c);
      var outcome := Apply64(s, Capture(c.holdId, tx, Trim(c.key), Trim(c.hash)), clock);
      if outcome.verdict.Refused? then Step(outcome.store, Err(Denied(outcome.verdict.refusal)))
      else Step(outcome.store, Ok(tx))
  }

  method CaptureHold(holds: HoldRepository, c: CaptureHoldCommand, operative: bool, at: Time, clock: Clock)
    returns (r: Result<Transaction, HoldFailure>)
    requires holds.db.Valid() && holds.Wired()
    modifies holds.db
    ensures holds.db.Valid()
    ensures r.Ok? ==>
              && FindHold(old(holds.db.View()), c.holdId).Some?
              && var h := FindHold(old(holds.db.View()), c.holdId).value;
                 && h.wallet in holds.db.wallets
                 && r.value.id == c.ids.transaction && r.value.description == Trim(c.description)
                 && r.value.entry.id == c.ids.entry && r.value.reverses == None
                 && r.value.entry.postings ==
                    [Posting(c.ids.walletPosting, holds.db.wallets[h.wallet], Debit, h.amount),
                     Posting(c.ids.settlementPosting, c.settlementAccount, Credit, h.amount)]
    ensures Step(holds.db.View(), r) == CaptureHoldStep(old(holds.db.View()), c, operative, at, clock)
  {
    hide LedgerInv, Fits64, HoldIndex, CaptureOutcome, ValidEntry, ValidTransaction;
    ghost var s := holds.db.View();
    if c.holdId == 0 || c.settlementAccount == 0 { return Err(Invalid(InvalidId)); }
    if !Supplied(c.ids) { return Err(Invalid(InvalidId)); }
    if Trim(c.key) == "" { return Err(EmptyIdempotencyKey); }
    if Trim(c.hash) == "" { return Err(EmptyRequestHash); }
    var found := holds.GetByID(c.holdId);
    if found.None? { return Err(Denied(HoldNotFound)); }
    var h := found.value;
    if h.wallet !in holds.db.wallets { return Err(Denied(WalletNotFound)); }
    if !operative { return Err(WalletInoperative); }
    var account := holds.db.wallets[h.wallet];
    if account == c.settlementAccount { return Err(CaptureSameAccount); }
    if h.status == Authorized {
      var captured := EndHold(h, Captured, at);
      if captured.Err? { return Err(Denied(captured.error)); }
    } else if h.status != Captured {
      return Err(Denied(HoldNotAuthorized));
    }
    StoredHoldIsValid(s, c.holdId);
    var walletPosting := Posting(c.ids.walletPosting, account, Debit, h.amount);
    var valid := walletPosting.Validate();
    if valid.Err? { return Err(Invalid(valid.error)); }
    var settlementPosting := Posting(c.ids.settlementPosting, c.settlementAccount, Credit, h.amount);
    valid := settlementPosting.Validate();
    if valid.Err? { assert false; }
    var entry := JournalEntry(c.ids.entry, c.ids.transaction, h.amount.currency, [walletPosting, settlementPosting]);
    SettlementEntryValid(h, account, c.settlementAccount, c.ids, c.description);
    var balanced := ValidateEntry(entry);
    if balanced.Err? { assert false; }
    if Trim(c.description) == "" { return Err(Invalid(EmptyDescription)); }
    var posted := NewTransaction(c.ids.transaction, c.description, entry);
    if posted.Err? { assert false; }
    assert posted.value == SettlementOf(s, c);
    var verdict := holds.Capture(c.holdId, posted.value, Trim(c.key), Trim(c.hash), clock.began, clock.checked);
    if verdict.Refused? { return Err(Denied(verdict.refusal)); }
    return Ok(posted.value);
  }

  function EndHoldStep(s: Store, id: Id, status: HoldStatus, clock: Clock): Step<Hold>
    requires status == Released || status == Expired
  {
    if id == 0 then Step(s, Err(Invalid(InvalidId)))
    else
      var outcome := Apply64(s, if status == Released then Release(id) else Expire(id), clock);
      match outcome.verdict
      case Refused(refusal) => Step(outcome.store, Err(Denied(refusal)))
      case _ =>
        (match FindHold(outcome.store, id)
         case Some(h) => Step(outcome.store, Ok(h))
         case None => Step(outcome.store, Err(Denied(HoldNotFound))))
  }

  /** A release ends a live hold and an expiration an expired one; the answer is the hold as it then is, or the reason
      that the stored hold shows. */
  predicate AnswersEnding(r: Result<Hold, HoldFailure>, s: Store, id: Id, status: HoldStatus, checked: Time) {
    if id == 0 then r == Err(Invalid(InvalidId))
    else
      match FindHold(s, id)
      case None => r == Err(Denied(HoldNotFound))
      case Some(h) =>
        var live := checked < h.expiresAt;
        r == if h.status != Authorized then Err(Denied(HoldNotAuthorized))
             else if status == Released && !live then Err(Denied(HoldExpired))
             else if status == Expired && live then Err(Denied(HoldNotExpired))
             else Ok(h.(status := status))
  }

  /** This hold is now as given, and nothing else is different. */
  ghost predicate OnlyHoldChanged(s: Store, s': Store, h: Hold) {
    && s' == s.(holds := s'.holds) && |s'.holds| == |s.holds|
    && FindHold(s', h.id) == Some(h)
    && forall id :: id != h.id ==> FindHold(s', id) == FindHold(s, id)
  }

  lemma StatusChangesOne(s: Store, id: Id, status: HoldStatus)
    requires FindHold(s, id).Some? && FindHold(s, id).value.status == Authorized
    ensures OnlyHoldChanged(s, SetStatus(s, id, status), FindHold(s, id).value.(status := status))
  {
    hide HoldIndex;
    forall other ensures other != id ==> FindHold(SetStatus(s, id, status), other) == FindHold(s, other) {
      Interference.FindAfterStatus(s, id, status, other);
    }
    Interference.FindAfterStatus(s, id, status, id);
  }

  /** Release and expire: read the hold, let the aggregate decide, then write the status under its guard. */
  method ReleaseOrExpire(holds: HoldRepository, id: Id, status: HoldStatus, clock: Clock)
    returns (r: Result<Hold, HoldFailure>)
    requires holds.db.Valid() && (status == Released || status == Expired)
    modifies holds.db
    ensures holds.db.Valid()
    ensures AnswersEnding(r, old(holds.db.View()), id, status, clock.checked)
    ensures r.Err? ==> holds.db.View() == old(holds.db.View())
    ensures r.Ok? ==> OnlyHoldChanged(old(holds.db.View()), holds.db.View(), r.value)
    ensures Step(holds.db.View(), r) == EndHoldStep(old(holds.db.View()), id, status, clock)
  {
    hide LedgerInv, HoldIndex;
    if id == 0 { return Err(Invalid(InvalidId)); }
    ghost var s := holds.db.View();
    var found := holds.GetByID(id);
    if found.None? { return Err(Denied(HoldNotFound)); }
    var ended := EndHold(found.value, status, clock.checked);
    if ended.Err? { return Err(Denied(ended.error)); }
    var ok := holds.UpdateStatus(id, status);
    if !ok { assert false; }
    Interference.FindAfterStatus(s, id, status, id);
    StatusChangesOne(s, id, status);
    return Ok(ended.value);
  }

  lemma StoredHoldIsValid(s: Store, id: Id)
    requires LedgerInv(s) && FindHold(s, id).Some?
    ensures FindHold(s, id).value.amount.Valid() && FindHold(s, id).value.amount.amount > 0
    ensures FindHold(s, id).value.id == id
  {
    hide KeysMatchLog, OutboxComplete;
  }

  lemma SettlementEntryValid(h: Hold, from: Id, to: Id, ids: SettlementIds, description: string)
    requires h.amount.Valid() && h.amount.amount > 0 && from != 0 && to != 0 && Supplied(ids)
    ensures ValidEntry(Settlement(h, from, to, ids, description).entry)
  {
    SettlementTotals(h, from, to, ids, description);
    var ps := Settlement(h, from, to, ids, description).entry.postings;
    assert ps[0].direction == Debit && ps[1].direction == Credit;
  }

  // ---------------------------------------------------------------- exactly when a request is granted

  /** The account can be read and has the amount available. */
  predicate CanPay(s: Store, a: Id, amount: int, t: Time) {
    CreditsFit(s, a) && Available(s, a, t) >= amount
  }

  /** A payee that is a wallet account can be read and stays within the word. */
  predicate CanTake(s: Store, a: Id, amount: int, t: Time) {
    a in s.wallets.Values ==> CreditsFit(s, a) && Available(s, a, t) + amount <= MAX_INT64
  }

  lemma HoldFitsIff(s: Store, h: Hold, now: Time)
    requires SoundRows(s) && NonNegative(s, now) && WellFormed(Authorize(h)) && h.wallet in s.wallets
    ensures Fits64(s, Authorize(h), now) <==> CanPay(s, s.wallets[h.wallet], h.amount.amount, now)
  {
    hide Booked, ActiveHolds, Wrap, SoundRows, WellFormed, Available, LedgerBalance, Readable, CreditsFit;
    var a, op := s.wallets[h.wallet], Authorize(h);
    assert a in Guarded(s, op) && forall b :: b in Guarded(s, op) ==> b == a;
    NonNegativeAt(s, a, now);
    BookedAtLeastAvailable(s, a, now);
    ReadableIffCreditsFit(s, a, now);
    if Readable(s, a, now) { HoldTestMeaning(s, op, a, now); }
  }

  /** What a hold request must be, whatever the balances. */
  predicate GoodHoldRequest(s: Store, c: CreateHoldCommand, w: WalletFacts, now: Time) {
    && c.id != 0 && c.wallet != 0 && c.amount > 0 && Trim(c.key) != "" && Trim(c.hash) != ""
    && c.wallet in s.wallets && w.operative && ValidCurrency(w.currency) && now < c.expiresAt
  }

  /** The answers to a request that is not good, in the order of the checks. */
  predicate FaultOfHoldRequest(f: HoldFailure, s: Store, c: CreateHoldCommand, w: WalletFacts, now: Time) {
    var named := c.id != 0 && c.wallet != 0;
    var keyed := named && c.amount > 0 && Trim(c.key) != "";
    var known := keyed && Trim(c.hash) != "" && c.wallet in s.wallets;
    match f
    case Invalid(InvalidId) => !named
    case Invalid(AmountMustNotBeNegative) => named && c.amount < 0
    case Invalid(AmountMustBePositive) => named && c.amount == 0
    case EmptyIdempotencyKey => named && c.amount > 0 && Trim(c.key) == ""
    case EmptyRequestHash => keyed && Trim(c.hash) == ""
    case Denied(WalletNotFound) => keyed && Trim(c.hash) != "" && c.wallet !in s.wallets
    case WalletInoperative => known && !w.operative
    case Invalid(InvalidCurrency) => known && w.operative && !ValidCurrency(w.currency)
    case InvalidHoldExpiration => known && w.operative && ValidCurrency(w.currency) && c.expiresAt <= now
    case _ => false
  }

  lemma HoldRequestFaults(s: Store, c: CreateHoldCommand, w: WalletFacts, now: Time)
    ensures CreateFault(s, c, w, now) == None <==> GoodHoldRequest(s, c, w, now)
    ensures forall f :: CreateFault(s, c, w, now) == Some(f) <==> FaultOfHoldRequest(f, s, c, w, now)
  {
    hide Trim;
  }

  /** A request adds a hold if and only if it is good, its key and id are free, and its wallet has the amount
      available; the hold added is the one asked for, authorized. */
  lemma {:induction false} HoldGrantedIff(s: Store, c: CreateHoldCommand, w: WalletFacts, clock: Clock)
    requires SoundRows(s) && NonNegative(s, clock.began)
    ensures var step := CreateHoldStep(s, c, w, clock);
            var amount := Money(w.currency, c.amount);
            var h := Hold(c.id, c.wallet, amount, Authorized, Trim(c.key), Trim(c.hash), c.expiresAt);
            && (step.store != s <==>
                  && GoodHoldRequest(s, c, w, clock.checked)
                  && FindHoldByKey(s, c.wallet, Trim(c.key)) == None && FindHold(s, c.id) == None
                  && CanPay(s, s.wallets[c.wallet], c.amount, clock.began))
            && (step.store != s ==> step.store == s.(holds := s.holds + [h]) && step.result == Ok(h))
  {
    hide SoundRows, NonNegative, CanPay, HoldIndex, HoldKeyIndex, Fits64, Trim, GoodHoldRequest;
    HoldRequestFaults(s, c, w, clock.checked);
    if CreateFault(s, c, w, clock.checked) == None {
      var h := NewHold(c, w.currency);
      HoldFitsIff(s, h, clock.began);
      assert (s.holds + [h]) != s.holds;
      if FindHoldByKey(s, h.wallet, h.key) == None { FoundAfterAppend(s, h); }
    }
  }

  /** What a hold request is answered. A good one gets the hold its key already has from the same request, or a new one
      when the wallet can pay and the id is free. */
  lemma {:induction false} HoldAnswers(s: Store, c: CreateHoldCommand, w: WalletFacts, clock: Clock)
    requires SoundRows(s) && NonNegative(s, clock.began)
    ensures var r := CreateHoldStep(s, c, w, clock).result;
            if !GoodHoldRequest(s, c, w, clock.checked) then
              r.Err? && FaultOfHoldRequest(r.error, s, c, w, clock.checked)
            else
              match FindHoldByKey(s, c.wallet, Trim(c.key))
              case Some(existing) =>
                r == if existing.hash == Trim(c.hash) then Ok(existing) else Err(Denied(HoldIdempotencyConflict))
              case None =>
                && (r == Err(Denied(InsufficientBalance)) <==> !CanPay(s, s.wallets[c.wallet], c.amount, clock.began))
                && (r == Err(Denied(ConstraintViolation)) <==>
                      CanPay(s, s.wallets[c.wallet], c.amount, clock.began) && FindHold(s, c.id).Some?)
                && (r.Err? ==> r.error == Denied(InsufficientBalance) || r.error == Denied(ConstraintViolation))
  {
    hide SoundRows, NonNegative, CanPay, HoldIndex, HoldKeyIndex, Fits64, Trim, GoodHoldRequest, FaultOfHoldRequest;
    HoldRequestFaults(s, c, w, clock.checked);
    if CreateFault(s, c, w, clock.checked) == None { HoldFitsIff(s, NewHold(c, w.currency), clock.began); }
  }

  lemma SettlementFitsIff(
    s: Store, h: Hold, from: Id, to: Id, ids: SettlementIds, description: string, op: Op, now: Time)
    requires SoundRows(s) && NonNegative(s, now) && WellFormed(op) && op.Capture? && from != to
    requires op.tx == Settlement(h, from, to, ids, description)
    requires from in s.wallets.Values && h.amount.amount > 0
    ensures Fits64(s, op, now) <==> CanPay(s, from, h.amount.amount, now) && CanTake(s, to, h.amount.amount, now)
  {
    hide Booked, ActiveHolds, Wrap, SoundRows, WellFormed, Delta, Accepts64, Readable, NonNegative;
    SettlementTotals(h, from, to, ids, description);
    SettlementDelta(h, from, to, ids, description, from);
    SettlementDelta(h, from, to, ids, description, to);
    AccountFitsIff(s, op, from, now);
    if to in s.wallets.Values { AccountFitsIff(s, op, to, now); }
    assert forall a :: a in Guarded(s, op) <==> a == from || (a == to && to in s.wallets.Values);
  }

  lemma AccountFitsIff(s: Store, op: Op, a: Id, now: Time)
    requires SoundRows(s) && NonNegative(s, now) && WellFormed(op) && PostLike(op) && a in s.wallets.Values
    ensures Available(s, a, now) >= 0
    ensures Accepts64(s, op, a, now) <==> CreditsFit(s, a) && 0 <= Projected(s, op, a, now) <= MAX_INT64
    ensures CreditsFit(s, a) ==> Available(s, a, now) <= MAX_INT64
  {
    hide Booked, ActiveHolds, Wrap, SoundRows, WellFormed, Delta, Accepts64, Readable;
    NonNegativeAt(s, a, now);
    SumsNonNegative(s, a, now);
    ReadableIffCreditsFit(s, a, now);
    Test64Exact(s, op, a, now);
  }

  /** What a capture request must be, whatever the balances: its hold is live, or captured already. */
  predicate GoodCaptureRequest(s: Store, c: CaptureHoldCommand, operative: bool, at: Time) {
    && c.holdId != 0 && c.settlementAccount != 0
    && c.ids.transaction != 0 && c.ids.entry != 0 && c.ids.walletPosting != 0 && c.ids.settlementPosting != 0
    && Trim(c.key) != "" && Trim(c.hash) != "" && Trim(c.description) != "" && operative
    && FindHold(s, c.holdId).Some?
    && var h := FindHold(s, c.holdId).value;
       && h.wallet in s.wallets && s.wallets[h.wallet] != 0 && s.wallets[h.wallet] != c.settlementAccount
       && (h.status == Captured || (h.status == Authorized && at < h.expiresAt))
  }

  /** The answers to a request that is not good, in the order of the checks. */
  predicate FaultOfCaptureRequest(f: HoldFailure, s: Store, c: CaptureHoldCommand, operative: bool, at: Time) {
    var named := c.holdId != 0 && c.settlementAccount != 0 && Supplied(c.ids);
    var keyed := named && Trim(c.key) != "" && Trim(c.hash) != "";
    match f
    case EmptyIdempotencyKey => named && Trim(c.key) == ""
    case EmptyRequestHash => named && Trim(c.key) != "" && Trim(c.hash) == ""
    case Denied(HoldNotFound) => keyed && FindHold(s, c.holdId) == None
    case _ =>
      if !named then f == Invalid(InvalidId)
      else
        keyed && FindHold(s, c.holdId).Some? && FaultOfHold(f, s, c, FindHold(s, c.holdId).value, operative, at)
  }

  predicate FaultOfHold(f: HoldFailure, s: Store, c: CaptureHoldCommand, h: Hold, operative: bool, at: Time) {
    var known := h.wallet in s.wallets && operative && s.wallets[h.wallet] != c.settlementAccount;
    var open := h.status == Captured || (h.status == Authorized && at < h.expiresAt);
    match f
    case Denied(WalletNotFound) => h.wallet !in s.wallets
    case WalletInoperative => h.wallet in s.wallets && !operative
    case CaptureSameAccount => h.wallet in s.wallets && operative && s.wallets[h.wallet] == c.settlementAccount
    case Denied(HoldExpired) => known && h.status == Authorized && h.expiresAt <= at
    case Denied(HoldNotAuthorized) => known && (h.status == Released || h.status == Expired)
    case Invalid(InvalidId) => known && open && s.wallets[h.wallet] == 0
    case Invalid(EmptyDescription) => known && open && s.wallets[h.wallet] != 0 && Trim(c.description) == ""
    case _ => false
  }

  lemma CaptureRequestFaults(s: Store, c: CaptureHoldCommand, operative: bool, at: Time)
    ensures CaptureFault(s, c, operative, at) == None <==> GoodCaptureRequest(s, c, operative, at)
    ensures forall f :: CaptureFault(s, c, operative, at) == Some(f) <==> FaultOfCaptureRequest(f, s, c, operative, at)
  {
    hide Trim, FindHold;
  }

  /** A capture under a fresh key goes through if and only if the request is good, the locked hold is still authorized
      and unexpired, no row is refused, the wallet has the amount available beside the hold's own reservation,
      and a settlement account with a wallet stays within the word. */
  lemma {:induction false} CaptureGrantedIff(s: Store, c: CaptureHoldCommand, operative: bool, at: Time, clock: Clock)
    requires LedgerInv(s) && NonNegative(s, clock.began) && Trim(c.key) !in s.keys
    ensures CaptureHoldStep(s, c, operative, at, clock).result.Ok? <==>
            && GoodCaptureRequest(s, c, operative, at)
            && var h := FindHold(s, c.holdId).value;
               && h.status == Authorized && clock.checked < h.expiresAt
               && Insertable(s, SettlementOf(s, c), Trim(c.key))
               && CanPay(s, s.wallets[h.wallet], h.amount.amount, clock.began)
               && CanTake(s, c.settlementAccount, h.amount.amount, clock.began)
  {
    hide LedgerInv, NonNegative, CanPay, CanTake, HoldIndex, Fits64, Trim, Insertable, Insert, SetStatus, Constructed;
    CaptureRequestFaults(s, c, operative, at);
    if CaptureFault(s, c, operative, at) == None {
      hide CaptureFault, GoodCaptureRequest;
      SettlementTested(s, c, operative, at, clock.began);
    }
  }

  lemma SettlementTested(s: Store, c: CaptureHoldCommand, operative: bool, at: Time, began: Time)
    requires LedgerInv(s) && NonNegative(s, began) && CaptureFault(s, c, operative, at) == None
    ensures FindHold(s, c.holdId).Some? && FindHold(s, c.holdId).value.wallet in s.wallets
    ensures var h := FindHold(s, c.holdId).value;
            Fits64(s, Capture(c.holdId, SettlementOf(s, c), Trim(c.key), Trim(c.hash)), began) <==>
            && CanPay(s, s.wallets[h.wallet], h.amount.amount, began)
            && CanTake(s, c.settlementAccount, h.amount.amount, began)
  {
    hide LedgerInv, NonNegative, CanPay, CanTake, HoldIndex, Fits64, Trim, Insertable, Constructed;
    var h := FindHold(s, c.holdId).value;
    var from, tx := s.wallets[h.wallet], SettlementOf(s, c);
    StoredHoldIsValid(s, c.holdId);
    SettlementConstructed(h, from, c.settlementAccount, c.ids, c.description);
    SoundFromLedger(s);
    SettlementFitsIff(s, h, from, c.settlementAccount, c.ids, c.description,
                      Capture(c.holdId, tx, Trim(c.key), Trim(c.hash)), began);
  }

  /** What a capture request is answered. A good one on a captured hold is answered as its key decides and changes
      nothing; a good one on a live hold posts the settlement, or finds its own posting, or says what stands in the
      way. */
  lemma {:induction false} CaptureAnswers(s: Store, c: CaptureHoldCommand, operative: bool, at: Time, clock: Clock)
    requires LedgerInv(s) && NonNegative(s, clock.began)
    ensures var step := CaptureHoldStep(s, c, operative, at, clock);
            var r, key, row := step.result, Trim(c.key), KeyRow(Trim(c.hash), c.ids.transaction);
            if !GoodCaptureRequest(s, c, operative, at) then
              r.Err? && FaultOfCaptureRequest(r.error, s, c, operative, at) && step.store == s
            else
              var h := FindHold(s, c.holdId).value;
              if h.status == Captured then
                && step.store == s
                && (r.Ok? <==> key in s.keys && s.keys[key] == row)
                && (r.Err? ==> r.error == Denied(if key in s.keys then IdempotencyConflict else HoldNotAuthorized))
              else
                var fits := CanPay(s, s.wallets[h.wallet], h.amount.amount, clock.began)
                            && CanTake(s, c.settlementAccount, h.amount.amount, clock.began);
                && (r.Err? ==> step.store == s)
                && r == if h.expiresAt <= clock.checked then Err(Denied(HoldExpired))
                        else if key in s.keys then
                          if s.keys[key] == row then Ok(SettlementOf(s, c)) else Err(Denied(IdempotencyConflict))
                        else if !fits then Err(Denied(InsufficientBalance))
                        else if !Insertable(s, SettlementOf(s, c), key) then Err(Denied(ConstraintViolation))
                        else Ok(SettlementOf(s, c))
  {
    hide LedgerInv, NonNegative, CanPay, CanTake, HoldIndex, Fits64, Trim, Insertable, Insert, SetStatus, Constructed;
    CaptureRequestFaults(s, c, operative, at);
    hide FaultOfCaptureRequest, FaultOfHold;
    if CaptureFault(s, c, operative, at) == None {
      SettlementTested(s, c, operative, at, clock.began);
      hide CaptureFault;
    }
  }
}
