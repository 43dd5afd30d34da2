/** How balances move, and when the 64-bit balance test tells the truth. */
module Balances {
  import opened Prelude
  import opened Money
  import opened Journal
  import opened Transactions
  import opened Ledger

  /** Rows as the domain constructors and the table checks leave them. */
  predicate SoundRows(s: Store) {
    ConstructedLog(s.log) && ConstructedHolds(s.holds)
  }

  predicate ConstructedLog(log: seq<Transaction>) {
    forall i :: 0 <= i < |log| ==> Constructed(log[i])
  }

  predicate ConstructedHolds(holds: seq<Hold>) {
    forall i :: 0 <= i < |holds| ==> holds[i].id != 0 && holds[i].amount.Valid() && holds[i].amount.amount > 0
  }

  lemma {:induction false} BookedNonNegative(log: seq<Transaction>, a: Id, d: Direction)
    requires ConstructedLog(log)
    ensures Booked(log, a, d) >= 0
  {
    if log != [] {
      var tx := log[|log| - 1];
      BookedNonNegative(log[..|log| - 1], a, d);
      SideBounded(tx.entry.postings, tx.entry.currency, a, d, |tx.entry.postings|);
    }
  }

  lemma {:induction false} ActiveHoldsNonNegative(wallets: map<Id, Id>, holds: seq<Hold>, a: Id, t: Time)
    requires ConstructedHolds(holds)
    ensures ActiveHolds(wallets, holds, a, t) >= 0
  {
    if holds != [] {
      ActiveHoldsNonNegative(wallets, holds[..|holds| - 1], a, t);
    }
  }

  function Reserved(wallets: map<Id, Id>, h: Hold, a: Id, t: Time): int {
    if Reserves(wallets, h, a, t) then h.amount.amount else 0
  }

  lemma {:induction false} ActiveHoldsUpdate(wallets: map<Id, Id>, holds: seq<Hold>, i: nat, h: Hold, a: Id, t: Time)
    requires i < |holds|
    ensures ActiveHolds(wallets, holds[i := h], a, t) ==
            ActiveHolds(wallets, holds, a, t) - Reserved(wallets, holds[i], a, t) + Reserved(wallets, h, a, t)
  {
    var n := |holds| - 1;
    if i == n {
      assert holds[i := h][..n] == holds[..n];
    } else {
      assert holds[i := h][..n] == holds[..n][i := h];
      ActiveHoldsUpdate(wallets, holds[..n], i, h, a, t);
    }
  }

  /** Waiting can only lapse holds, never create them. */
  lemma {:induction false} ActiveHoldsLapse(wallets: map<Id, Id>, holds: seq<Hold>, a: Id, t: Time, later: Time)
    requires ConstructedHolds(holds)
    requires t <= later
    ensures 0 <= ActiveHolds(wallets, holds, a, later) <= ActiveHolds(wallets, holds, a, t)
  {
    if holds != [] {
      ActiveHoldsLapse(wallets, holds[..|holds| - 1], a, t, later);
    }
  }

  /** Posting moves an account by exactly its delta, at every instant. */
  lemma InsertMoves(s: Store, tx: Transaction, key: string, hash: string, a: Id, t: Time)
    ensures LedgerBalance(Insert(s, tx, key, hash), a) == LedgerBalance(s, a) + Delta(tx.entry.postings, a)
    ensures Available(Insert(s, tx, key, hash), a, t) == Available(s, a, t) + Delta(tx.entry.postings, a)
  {
    var log := s.log + [tx];
    assert log[..|log| - 1] == s.log;
  }

  /** A new hold lowers the available balance of its own account while it lasts, and moves no booked balance. */
  lemma HoldMoves(s: Store, h: Hold, a: Id, t: Time)
    ensures LedgerBalance(s.(holds := s.holds + [h]), a) == LedgerBalance(s, a)
    ensures Available(s.(holds := s.holds + [h]), a, t) == Available(s, a, t) - Reserved(s.wallets, h, a, t)
  {
    var holds := s.holds + [h];
    assert holds[..|holds| - 1] == s.holds;
  }

  /** Ending a hold gives back exactly what it reserved at that instant, and moves no booked balance. */
  lemma StatusMoves(s: Store, id: Id, status: HoldStatus, a: Id, t: Time)
    requires status != Authorized && FindHold(s, id).Some?
    ensures LedgerBalance(SetStatus(s, id, status), a) == LedgerBalance(s, a)
    ensures Available(SetStatus(s, id, status), a, t) ==
            Available(s, a, t) + Reserved(s.wallets, FindHold(s, id).value, a, t)
  {
    var i := HoldIndex(s.holds, id);
    ActiveHoldsUpdate(s.wallets, s.holds, i, s.holds[i].(status := status), a, t);
  }

  predicate PostLike(op: Op) {
    op.Post? || op.Capture?
  }

  lemma RegistersAddUp(credits: int, debits: int, held: int, delta: int)
    ensures Wrap(Wrap(Wrap(credits - debits) + Wrap(-held)) + Wrap(delta)) == Wrap(credits - debits - held + delta)
  {
    hide Wrap;
    var x := credits - debits;
    WrapSum(-held, Wrap(x));
    WrapSum(x, -held);
    WrapSum(delta, Wrap(x - held));
    WrapSum(x - held, delta);
  }

  lemma SumsNonNegative(s: Store, a: Id, t: Time)
    requires SoundRows(s)
    ensures Booked(s.log, a, Credit) >= 0 && Booked(s.log, a, Debit) >= 0
    ensures ActiveHolds(s.wallets, s.holds, a, t) >= 0
  {
    BookedNonNegative(s.log, a, Credit);
    BookedNonNegative(s.log, a, Debit);
    ActiveHoldsNonNegative(s.wallets, s.holds, a, t);
  }

  lemma EffectBounded(op: Op, a: Id)
    requires WellFormed(op) && PostLike(op)
    ensures -MAX_INT64 <= Effect(op, a) <= MAX_INT64
  {
    DeltaBounded(op.tx.entry, a);
  }

  lemma TestIsOneSum(s: Store, op: Op, a: Id, t: Time)
    requires PostLike(op) && Readable(s, a, t)
    ensures Accepts64(s, op, a, t) <==> Wrap(Projected(s, op, a, t)) >= 0
  {
    hide Booked, ActiveHolds, Wrap, Delta;
    RegistersAddUp(Booked(s.log, a, Credit), Booked(s.log, a, Debit), ActiveHolds(s.wallets, s.holds, a, t),
                   Effect(op, a));
  }

  /** What the raw test accepts for a posting, on a readable account whose booked balance is not negative:
      exactly the exact projected balances that fit the word or lie below -2^63. */
  lemma PostTestMeaning(s: Store, op: Op, a: Id, t: Time)
    requires SoundRows(s) && WellFormed(op) && PostLike(op)
    requires Readable(s, a, t) && LedgerBalance(s, a) >= 0
    ensures Accepts64(s, op, a, t) <==> 0 <= Projected(s, op, a, t) <= MAX_INT64 || Projected(s, op, a, t) < MIN_INT64
  {
    hide Booked, ActiveHolds, Wrap, Delta, WellFormed, SoundRows;
    SumsNonNegative(s, a, t);
    EffectBounded(op, a);
    TestIsOneSum(s, op, a, t);
    hide Accepts64, Effect;
    WrapSign(Projected(s, op, a, t));
  }

  /** On the same accounts the test of a new hold is exact. */
  lemma HoldTestMeaning(s: Store, op: Op, a: Id, t: Time)
    requires SoundRows(s) && WellFormed(op) && op.Authorize?
    requires Readable(s, a, t) && LedgerBalance(s, a) >= 0
    ensures Accepts64(s, op, a, t) <==> Projected(s, op, a, t) >= 0
  {
    hide Booked, ActiveHolds, Wrap;
    SumsNonNegative(s, a, t);
    var balance := LedgerBalance(s, a);
    var held := ActiveHolds(s.wallets, s.holds, a, t);
    WrapUnique(balance, balance, 0);
    WrapUnique(balance - held, balance - held, 0);
  }

  /** The exact condition for an accepted test to be true: the projected balance is in the word's range.
      Both directions: outside that range the raw test accepts a posting that overdraws. */
  lemma {:induction false} AcceptedIsTrueIffInWindow(s: Store, op: Op, a: Id, t: Time)
    requires SoundRows(s) && WellFormed(op) && (PostLike(op) || op.Authorize?)
    requires LedgerBalance(s, a) >= 0 && Accepts64(s, op, a, t)
    ensures Projected(s, op, a, t) >= 0 <==> Projected(s, op, a, t) >= MIN_INT64
  {
    hide LedgerBalance, Projected;
    if PostLike(op) {
      PostTestMeaning(s, op, a, t);
    } else {
      HoldTestMeaning(s, op, a, t);
    }
  }

  /** A readable account that projects below -2^63 has too little booked, let alone available. */
  lemma FarBelowIsOverdraft(s: Store, op: Op, a: Id, t: Time)
    requires SoundRows(s) && Readable(s, a, t) && Projected(s, op, a, t) < MIN_INT64
    ensures LedgerBalance(s, a) + Effect(op, a) < 0
  {
    hide Booked, ActiveHolds, Effect;
  }

  /** What the test meant for the wallet: when a posting commits on an account whose raw reading it accepted, at
      whatever earlier instant that was taken, the account ends overdrawn exactly when the exact projected balance
      was below -2^63. */
  lemma {:induction false} CommitOverdrawsIff(s: Store, op: Op, a: Id, began: Time, now: Time)
    requires SoundRows(s) && WellFormed(op) && PostLike(op) && began <= now
    requires Available(s, a, now) >= 0 && Accepts64(s, op, a, began)
    ensures Available(Insert(s, op.tx, op.key, op.hash), a, now) < 0 <==> Projected(s, op, a, began) < MIN_INT64
  {
    hide Booked, ActiveHolds, Wrap, Delta, Insert, WellFormed;
    BookedAtLeastAvailable(s, a, now);
    InsertMoves(s, op.tx, op.key, op.hash, a, now);
    AcceptedIsTrueIffInWindow(s, op, a, began);
    ActiveHoldsLapse(s.wallets, s.holds, a, began, now);
    if Projected(s, op, a, began) < MIN_INT64 { FarBelowIsOverdraft(s, op, a, began); }
  }

  /** With no hold lapsing behind the reading, the raw test is exact and every wrap-around rejects. */
  lemma {:induction false} Test64Exact(s: Store, op: Op, a: Id, t: Time)
    requires SoundRows(s) && WellFormed(op) && PostLike(op)
    requires Available(s, a, t) >= 0
    ensures Accepts64(s, op, a, t) <==> Readable(s, a, t) && 0 <= Projected(s, op, a, t) <= MAX_INT64
  {
    hide Booked, ActiveHolds, Wrap, Delta, WellFormed, SoundRows;
    SumsNonNegative(s, a, t);
    EffectBounded(op, a);
    if Readable(s, a, t) {
      PostTestMeaning(s, op, a, t);
    }
  }

  /** Every wallet account has a non-negative available balance. */
  predicate NonNegative(s: Store, now: Time) {
    forall a :: a in s.wallets.Values ==> Available(s, a, now) >= 0
  }

  lemma NonNegativeAt(s: Store, a: Id, now: Time)
    requires NonNegative(s, now) && a in s.wallets.Values
    ensures Available(s, a, now) >= 0
  {
  }

  lemma BookedAtLeastAvailable(s: Store, a: Id, t: Time)
    requires SoundRows(s)
    ensures LedgerBalance(s, a) >= Available(s, a, t)
  {
    ActiveHoldsNonNegative(s.wallets, s.holds, a, t);
  }

  lemma PostKeeps(s: Store, op: Op, fits: bool, a: Id, began: Time, now: Time)
    requires SoundRows(s) && NonNegative(s, now) && a in s.wallets.Values && began <= now
    requires PostLike(op) && (fits ==> Fits(s, op, began))
    ensures Available(PostOutcome(s, op.tx, op.key, op.hash, fits).store, a, now) >= 0
  {
    InsertMoves(s, op.tx, op.key, op.hash, a, now);
    ActiveHoldsLapse(s.wallets, s.holds, a, began, now);
    if a in Accounts(op.tx.entry.postings) {
      assert a in Guarded(s, op);
    } else {
      DeltaUntouched(op.tx.entry.postings, a);
    }
  }

  lemma AuthorizeKeeps(s: Store, op: Op, fits: bool, a: Id, began: Time, now: Time)
    requires SoundRows(s) && NonNegative(s, now) && a in s.wallets.Values && began <= now
    requires op.Authorize? && WellFormed(op) && (fits ==> Fits(s, op, began))
    ensures Available(AuthorizeOutcome(s, op.hold, fits).store, a, now) >= 0
  {
    HoldMoves(s, op.hold, a, now);
    ActiveHoldsLapse(s.wallets, s.holds, a, began, now);
    if op.hold.wallet in s.wallets && s.wallets[op.hold.wallet] == a {
      assert a in Guarded(s, op);
    }
  }

  lemma StatusKeeps(s: Store, id: Id, status: HoldStatus, a: Id, now: Time)
    requires ConstructedHolds(s.holds) && status != Authorized && FindHold(s, id).Some?
    ensures Available(SetStatus(s, id, status), a, now) >= Available(s, a, now)
  {
    StatusMoves(s, id, status, a, now);
  }

  lemma CaptureKeeps(s: Store, op: Op, checked: Time, fits: bool, a: Id, began: Time, now: Time)
    requires SoundRows(s) && NonNegative(s, now) && a in s.wallets.Values && began <= now
    requires op.Capture? && (fits ==> Fits(s, op, began))
    ensures Available(CaptureOutcome(s, op.holdId, op.tx, op.key, op.hash, checked, fits).store, a, now) >= 0
  {
    hide Available, Insertable, TouchedWallets, Fits, CheckKey, SetStatus, HoldIndex, ConstructedHolds, NonNegative;
    NonNegativeAt(s, a, now);
    if FindHold(s, op.holdId).Some? {
      PostKeeps(s, op, fits, a, began, now);
      var posted := PostOutcome(s, op.tx, op.key, op.hash, fits).store;
      assert posted.holds == s.holds;
      StatusKeeps(posted, op.holdId, Captured, a, now);
    }
  }

  /** No operation touches the accounts or the wallets. */
  lemma ReferenceDataFixed(s: Store, op: Op, c: Clock, fits: bool)
    ensures OutcomeWith(s, op, c, fits).store.wallets == s.wallets
    ensures OutcomeWith(s, op, c, fits).store.accounts == s.accounts
  {
    hide Insertable, TouchedWallets, CheckKey, FindHoldByKey, FindHold, HoldIndex;
  }

  /** Any operation that passes the exact test, whenever it began, leaves no wallet overdrawn. */
  lemma OutcomeKeepsNonNegative(s: Store, op: Op, c: Clock, fits: bool, now: Time)
    requires SoundRows(s) && NonNegative(s, now) && WellFormed(op) && c.began <= now
    requires fits ==> Fits(s, op, c.began)
    ensures NonNegative(OutcomeWith(s, op, c, fits).store, now)
  {
    hide Available, Insertable, TouchedWallets, Fits, WellFormed, CheckKey, SetStatus, HoldIndex, FindHoldByKey;
    var s' := OutcomeWith(s, op, c, fits).store;
    ReferenceDataFixed(s, op, c, fits);
    forall a | a in s'.wallets.Values ensures Available(s', a, now) >= 0 {
      match op {
        case Post(_, _, _) => PostKeeps(s, op, fits, a, c.began, now);
        case Authorize(_) => AuthorizeKeeps(s, op, fits, a, c.began, now);
        case Capture(_, _, _, _) => CaptureKeeps(s, op, c.checked, fits, a, c.began, now);
        case Release(id) => if FindHold(s, id).Some? { StatusKeeps(s, id, Released, a, now); }
        case Expire(id) => if FindHold(s, id).Some? { StatusKeeps(s, id, Expired, a, now); }
      }
    }
  }

  /** Executed alone, so that the reading is current, the 64-bit code never overdraws a wallet. */
  lemma {:induction false} Apply64KeepsNonNegative(s: Store, op: Op, now: Time)
    requires SoundRows(s) && NonNegative(s, now) && WellFormed(op)
    ensures Fits64(s, op, now) ==> Fits(s, op, now)
    ensures NonNegative(Apply64(s, op, Clock(now, now)).store, now)
  {
    if Fits64(s, op, now) {
      forall a | a in Guarded(s, op) ensures Projected(s, op, a, now) >= 0 {
        assert Accepts64(s, op, a, now);
        BookedAtLeastAvailable(s, a, now);
        if PostLike(op) {
          Test64Exact(s, op, a, now);
        } else {
          HoldTestMeaning(s, op, a, now);
        }
      }
    }
    OutcomeKeepsNonNegative(s, op, Clock(now, now), Fits64(s, op, now), now);
  }

  predicate CreditsFit(s: Store, a: Id) {
    Booked(s.log, a, Credit) <= MAX_INT64
  }

  /** An account that is not overdrawn can be read if and only if its credits fit the word: its debits and holds are
      then covered by them. */
  lemma ReadableIffCreditsFit(s: Store, a: Id, t: Time)
    requires SoundRows(s) && Available(s, a, t) >= 0
    ensures Readable(s, a, t) <==> CreditsFit(s, a)
  {
    hide Booked, ActiveHolds;
    SumsNonNegative(s, a, t);
  }

  /** Every wallet account the posting touches can be read and ends within [0, MaxInt64]. */
  predicate StaysInWord(s: Store, tx: Transaction, now: Time) {
    forall a :: a in Accounts(tx.entry.postings) && a in s.wallets.Values ==>
      CreditsFit(s, a) && 0 <= Available(s, a, now) + Delta(tx.entry.postings, a) <= MAX_INT64
  }

  lemma PostFitsIff(s: Store, tx: Transaction, key: string, hash: string, now: Time)
    requires SoundRows(s) && NonNegative(s, now) && Constructed(tx)
    ensures Fits64(s, Post(tx, key, hash), now) <==> StaysInWord(s, tx, now)
  {
    hide Accepts64, Available, Delta, Readable, SoundRows, NonNegative, Constructed, Booked;
    var op := Post(tx, key, hash);
    forall a | a in Guarded(s, op)
      ensures Accepts64(s, op, a, now) <==>
              CreditsFit(s, a) && 0 <= Available(s, a, now) + Delta(tx.entry.postings, a) <= MAX_INT64
    {
      NonNegativeAt(s, a, now);
      ReadableIffCreditsFit(s, a, now);
      Test64Exact(s, op, a, now);
    }
  }

  /** What a posting executed alone answers, and exactly when. It is done if and only if its key is new, every wallet
      account it touches can be read and ends within [0, MaxInt64], and no row is refused. */
  lemma {:induction false} PostGrantedIff(s: Store, tx: Transaction, key: string, hash: string, now: Time)
    requires SoundRows(s) && NonNegative(s, now) && Constructed(tx)
    ensures var outcome := Apply64(s, Post(tx, key, hash), Clock(now, now));
            && (outcome.verdict == Replayed <==> key in s.keys && s.keys[key] == KeyRow(hash, tx.id))
            && (outcome.verdict == Refused(IdempotencyConflict) <==>
                  key in s.keys && s.keys[key] != KeyRow(hash, tx.id))
            && (outcome.verdict == Refused(InsufficientBalance) <==> key !in s.keys && !StaysInWord(s, tx, now))
            && (outcome.verdict == Refused(ConstraintViolation) <==>
                  key !in s.keys && StaysInWord(s, tx, now) && !Insertable(s, tx, key))
            && (outcome.verdict == Done <==> key !in s.keys && StaysInWord(s, tx, now) && Insertable(s, tx, key))
            && outcome.store == if outcome.verdict == Done then Insert(s, tx, key, hash) else s
  {
    hide Insertable, Insert, Fits64, StaysInWord, SoundRows, NonNegative, Constructed;
    PostFitsIff(s, tx, key, hash, now);
  }
}
