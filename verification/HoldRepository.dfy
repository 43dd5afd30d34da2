/** Holds: authorize under the wallet lock, capture under the wallet and hold locks in one database
    transaction with the posting, and end by one guarded update. */
module HoldRepository {
  import opened Prelude
  import opened Money
  import opened Journal
  import opened Transactions
  import opened Ledger
  import opened Bookkeeping
  import opened Tables
  import opened Storage
  import opened LedgerRepository

  /** The transitions of the hold aggregate: terminal statuses have no way out, a release needs the hold to be
      unexpired and an expiration needs it to be expired. */
  function EndHold(h: Hold, status: HoldStatus, at: Time): (r: Result<Hold, Refusal>)
    requires status != Authorized
    ensures r.Ok? <==> h.status == Authorized && (at < h.expiresAt <==> status != Expired)
    ensures r.Ok? ==> r.value == h.(status := status)
    ensures r.Err? ==> r.error == if h.status != Authorized then HoldNotAuthorized
                                  else if status == Expired then HoldNotExpired else HoldExpired
  {
    if h.status != Authorized then Err(HoldNotAuthorized)
    else if status == Expired then (if at < h.expiresAt then Err(HoldNotExpired) else Ok(h.(status := Expired)))
    else if !(at < h.expiresAt) then Err(HoldExpired)
    else Ok(h.(status := status))
  }

  lemma CaptureTestsLikePost(s: Store, id: Id, tx: Transaction, key: string, hash: string, now: Time)
    ensures Fits64(s, Ledger.Capture(id, tx, key, hash), now) <==> Fits64(s, Ledger.Post(tx, key, hash), now)
  {
    hide Wrap, Booked, ActiveHolds, Delta, Readable;
    var op, post := Ledger.Capture(id, tx, key, hash), Ledger.Post(tx, key, hash);
    assert Guarded(s, op) == Guarded(s, post);
    forall a: Id ensures Accepts64(s, op, a, now) == Accepts64(s, post, a, now) {
      assert Effect(op, a) == Effect(post, a);
    }
  }

  class HoldRepository {
    const db: Database
    const transactions: TransactionRepository

    constructor (db: Database, transactions: TransactionRepository)
      requires transactions.db == db
      ensures this.db == db && this.transactions == transactions && Wired()
    {
      this.db, this.transactions := db, transactions;
    }

    ghost predicate Wired() {
      transactions.db == db
    }

    /** The 64-bit test of a new hold against the available balance of its wallet's account. */
    method HasFunds(h: Hold, account: Id, now: Time) returns (ok: bool)
      requires db.Valid() && h.wallet in db.wallets && db.wallets[h.wallet] == account
      ensures ok <==> Fits64(db.View(), Ledger.Authorize(h), now)
    {
      hide LedgerInv, Booked, ActiveHolds, Wrap;
      assert account in Guarded(db.View(), Ledger.Authorize(h));
      var balance := db.GetLedgerBalance(account, now);
      if balance.None? { return false; }
      var available := Wrap(Wrap(balance.value.credits - balance.value.debits) - balance.value.activeHolds);
      return available >= h.amount.amount;
    }

    /** Returns the stored hold: the new one, or the one this key already made. */
    method Authorize(h: Hold, now: Time) returns (verdict: Verdict, stored: Option<Hold>)
      requires db.Valid() && WellFormed(Ledger.Authorize(h))
      modifies db
      ensures db.Valid()
      ensures Outcome(db.View(), verdict) == Apply64(old(db.View()), Ledger.Authorize(h), Clock(now, now))
      ensures stored == if verdict.Refused? then None else FindHoldByKey(db.View(), h.wallet, h.key)
    {
      hide LedgerInv, Fits64, HoldIndex, HoldKeyIndex, TransactionTable, EntryTable, PostingTable;
      ghost var s := db.View();
      if h.wallet !in db.wallets { return Refused(WalletNotFound), None; }
      var existing := db.GetWalletHoldByIdempotencyKey(h.wallet, h.key);
      if existing.Some? {
        if existing.value.hash != h.hash { return Refused(HoldIdempotencyConflict), None; }
        return Replayed, existing;
      }
      var funded := HasFunds(h, db.wallets[h.wallet], now);
      if !funded { return Refused(InsufficientBalance), None; }
      var created := db.CreateWalletHold(h);
      if !created { return Refused(ConstraintViolation), None; }
      HoldKeeps(s, h);
      FoundAfterAppend(s, h);
      return Done, Some(h);
    }

    method GetByID(id: Id) returns (h: Option<Hold>)
      ensures h == FindHold(db.View(), id)
    {
      h := db.GetWalletHoldByID(id);
    }

    method UpdateStatus(id: Id, status: HoldStatus) returns (ok: bool)
      requires db.Valid()
      modifies db
      ensures db.Valid()
      ensures ok <==> FindHold(old(db.View()), id).Some? && FindHold(old(db.View()), id).value.status == Authorized
      ensures db.View() == SetStatus(old(db.View()), id, status)
    {
      hide LedgerInv, HoldIndex, TransactionTable, EntryTable, PostingTable;
      ghost var s := db.View();
      var rows := db.UpdateWalletHoldStatus(id, status);
      Bookkeeping.StatusKeeps(s, id, status);
      return rows != 0;
    }

    /** The posting and the status change are one commit: a refusal leaves neither. */
    method Capture(id: Id, tx: Transaction, key: string, hash: string, now: Time, checked: Time)
      returns (verdict: Verdict)
      requires db.Valid() && Wired() && Constructed(tx)
      modifies db
      ensures db.Valid()
      ensures Outcome(db.View(), verdict) ==
              Apply64(old(db.View()), Ledger.Capture(id, tx, key, hash), Clock(now, checked))
    {
      hide LedgerInv, Fits64, HoldIndex, Constructed, Insertable, TransactionTable, EntryTable, PostingTable, SetStatus,
           TouchedWallets;
      ghost var s := db.View();
      var held := db.GetWalletHoldByID(id);
      if held.None? { return Refused(HoldNotFound); }
      var h := held.value;
      if h.wallet !in db.wallets { return Refused(WalletNotFound); }
      if h.status == Captured {
        var recorded := transactions.CheckIdempotency(tx, key, hash);
        if recorded == Conflict { return Refused(IdempotencyConflict); }
        if recorded == Absent { return Refused(HoldNotAuthorized); }
        return Replayed;
      }
      if h.status != Authorized { return Refused(HoldNotAuthorized); }
      if !(checked < h.expiresAt) { return Refused(HoldExpired); }
      CaptureTestsLikePost(s, id, tx, key, hash, now);
      var saved := db.Save();
      var posted := transactions.PostInTransaction(tx, key, hash, now);
      if posted.Refused? {
        db.Rollback(saved);
        return posted;
      }
      assert FindHold(db.View(), id) == FindHold(s, id);
      ghost var middle := db.View();
      var rows := db.UpdateWalletHoldStatus(id, Captured);
      if rows != 1 { assert false; }
      Bookkeeping.StatusKeeps(middle, id, Captured);
      return Done;
    }
  }

  lemma FoundAfterAppend(s: Store, h: Hold)
    requires FindHoldByKey(s, h.wallet, h.key) == None
    ensures FindHoldByKey(s.(holds := s.holds + [h]), h.wallet, h.key) == Some(h)
  {
    hide HoldKeyIndex;
    var holds := s.holds + [h];
    var i := HoldKeyIndex(holds, h.wallet, h.key);
    assert holds[|s.holds|] == h;
    assert forall k :: 0 <= k < |s.holds| ==> holds[k] == s.holds[k];
    assert HoldKeyIndex(s.holds, h.wallet, h.key) == |s.holds|;
  }
}
