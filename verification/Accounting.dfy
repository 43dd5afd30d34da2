/** What each hold operation does to balances, to the last minor unit. */
module Accounting {
  import opened Prelude
  import opened Journal
  import opened Transactions
  import opened Ledger
  import opened Balances
  import opened Interference

  /** Ids a caller supplies for the settlement of one captured hold. */
  datatype SettlementIds = SettlementIds(transaction: Id, entry: Id, walletPosting: Id, settlementPosting: Id)

  predicate Supplied(ids: SettlementIds) {
    ids.transaction != 0 && ids.entry != 0 && ids.walletPosting != 0 && ids.settlementPosting != 0
  }

  /** The transaction a capture posts: the held amount from the wallet's account to the settlement account. */
  function Settlement(h: Hold, walletAccount: Id, settlementAccount: Id, ids: SettlementIds, description: string)
    : Transaction
  {
    Transaction(
      ids.transaction,
      Trim(description),
      JournalEntry(ids.entry, ids.transaction, h.amount.currency,
                   [Posting(ids.walletPosting, walletAccount, Debit, h.amount),
                    Posting(ids.settlementPosting, settlementAccount, Credit, h.amount)]),
      None)
  }

  lemma PairSums(p: Posting, q: Posting, a: Id, d: Direction)
    ensures Total([p, q], d) == Total([p], d) + Total([q], d)
    ensures Total([p], d) == if p.direction == d then p.amount.amount else 0
    ensures Total([q], d) == if q.direction == d then q.amount.amount else 0
    ensures Side([p, q], a, d) == Side([p], a, d) + Side([q], a, d)
    ensures Side([p], a, d) == if p.account == a && p.direction == d then p.amount.amount else 0
    ensures Side([q], a, d) == if q.account == a && q.direction == d then q.amount.amount else 0
  {
    assert [p, q] == [p] + [q];
    TotalConcat([p], [q], d);
    SideConcat([p], [q], a, d);
  }

  lemma SettlementTotals(h: Hold, from: Id, to: Id, ids: SettlementIds, description: string)
    ensures var ps := Settlement(h, from, to, ids, description).entry.postings;
            && Total(ps, Debit) == h.amount.amount == Total(ps, Credit)
            && Accounts(ps) == {from, to}
  {
    var ps := Settlement(h, from, to, ids, description).entry.postings;
    PairSums(ps[0], ps[1], from, Debit);
    PairSums(ps[0], ps[1], from, Credit);
    assert ps[0].account == from && ps[1].account == to;
  }

  /** It is balanced whatever the hold: no caller can make a settlement that the journal refuses. */
  lemma SettlementConstructed(h: Hold, from: Id, to: Id, ids: SettlementIds, description: string)
    requires h.amount.Valid() && h.amount.amount > 0
    requires from != 0 && to != 0 && Supplied(ids)
    ensures Constructed(Settlement(h, from, to, ids, description)) <==> Trim(description) != ""
  {
    var tx := Settlement(h, from, to, ids, description);
    SettlementTotals(h, from, to, ids, description);
    TrimIdempotent(description);
    assert tx.entry.postings[0].direction == Debit && tx.entry.postings[1].direction == Credit;
  }

  lemma SettlementDelta(h: Hold, from: Id, to: Id, ids: SettlementIds, description: string, a: Id)
    requires from != to
    ensures Delta(Settlement(h, from, to, ids, description).entry.postings, a) ==
            if a == from then -(h.amount.amount as int) else if a == to then h.amount.amount else 0
  {
    var ps := Settlement(h, from, to, ids, description).entry.postings;
    PairSums(ps[0], ps[1], a, Debit);
    PairSums(ps[0], ps[1], a, Credit);
  }

  // ---------------------------------------------------------------- authorize

  /** A hold that is granted lowers its own account's available balance by its amount until it expires, and
      moves nothing else. */
  lemma AuthorizeReserves(s: Store, h: Hold, c: Clock, fits: bool, a: Id, t: Time)
    requires WellFormed(Authorize(h)) && OutcomeWith(s, Authorize(h), c, fits).verdict == Done
    ensures var s' := OutcomeWith(s, Authorize(h), c, fits).store;
            && h.wallet in s.wallets
            && LedgerBalance(s', a) == LedgerBalance(s, a)
            && Available(s', a, t) ==
               Available(s, a, t) - if a == s.wallets[h.wallet] && t < h.expiresAt then h.amount.amount else 0
  {
    hide Booked, ActiveHolds, HoldIndex, HoldKeyIndex;
    HoldMoves(s, h, a, t);
  }

  // ---------------------------------------------------------------- capture

  /** The hold is booked from the wallet to the settlement account, once and in full: the wallet's booked
      balance falls by exactly the amount, and while the reservation would have lasted its available balance
      does not move, because the reservation ends in the same commit. */
  lemma CaptureSettles(s: Store, h: Hold, to: Id, ids: SettlementIds, description: string, key: string, hash: string,
                       c: Clock, fits: bool, a: Id, t: Time)
    requires FindHold(s, h.id) == Some(h) && h.wallet in s.wallets && s.wallets[h.wallet] != to
    requires key !in s.keys
    requires var op := Capture(h.id, Settlement(h, s.wallets[h.wallet], to, ids, description), key, hash);
             OutcomeWith(s, op, c, fits).verdict == Done
    ensures var from := s.wallets[h.wallet];
            var op := Capture(h.id, Settlement(h, from, to, ids, description), key, hash);
            var s' := OutcomeWith(s, op, c, fits).store;
            var amount: int := h.amount.amount;
            && LedgerBalance(s', a) ==
               LedgerBalance(s, a) + (if a == from then -amount else if a == to then amount else 0)
            && Available(s', a, t) ==
               Available(s, a, t) + (if a == to then amount else if a == from && t >= h.expiresAt then -amount else 0)
  {
    hide Booked, ActiveHolds, HoldIndex, Delta, Insertable, TouchedWallets;
    var from := s.wallets[h.wallet];
    var tx := Settlement(h, from, to, ids, description);
    var posted := Insert(s, tx, key, hash);
    SettlementDelta(h, from, to, ids, description, a);
    InsertMoves(s, tx, key, hash, a, t);
    assert FindHold(posted, h.id) == FindHold(s, h.id);
    StatusMoves(posted, h.id, Captured, a, t);
  }

  /** No index entry or reference stands in the way of the settlement. */
  predicate Capturable(s: Store, op: Op, c: Clock) {
    && op.Capture?
    && FindHold(s, op.holdId).Some?
    && FindHold(s, op.holdId).value.wallet in s.wallets
    && FindHold(s, op.holdId).value.status == Authorized
    && c.checked < FindHold(s, op.holdId).value.expiresAt
    && Insertable(s, op.tx, op.key)
  }

  /** An active hold can be captured exactly when its amount is available a second time: the balance test
      still counts the reservation that the capture is about to end. */
  lemma CaptureNeedsFundsTwice(s: Store, h: Hold, to: Id, ids: SettlementIds, description: string, key: string,
                               hash: string, c: Clock)
    requires SoundRows(s) && FindHold(s, h.id) == Some(h) && h.wallet in s.wallets && s.wallets[h.wallet] != to
    requires NonNegative(s, c.began)
    requires Capturable(s, Capture(h.id, Settlement(h, s.wallets[h.wallet], to, ids, description), key, hash), c)
    ensures var op := Capture(h.id, Settlement(h, s.wallets[h.wallet], to, ids, description), key, hash);
            Apply(s, op, c).verdict == Done <==> Available(s, s.wallets[h.wallet], c.began) >= h.amount.amount
  {
    hide Available, HoldIndex, Delta, Insert, HasTransaction, HasEntry, HasPosting, HasReversalOf, DistinctIds,
         SetStatus;
    var from := s.wallets[h.wallet];
    var tx := Settlement(h, from, to, ids, description);
    var op := Capture(h.id, tx, key, hash);
    SettlementTotals(h, from, to, ids, description);
    assert from in Guarded(s, op);
    FindHoldPositive(s, h.id);
    forall a | a in Guarded(s, op) ensures Projected(s, op, a, c.began) >= 0 <==> 
      a != from || Available(s, from, c.began) >= h.amount.amount
    {
      SettlementDelta(h, from, to, ids, description, a);
      NonNegativeAt(s, a, c.began);
    }
  }

  lemma FindHoldPositive(s: Store, id: Id)
    requires SoundRows(s) && FindHold(s, id).Some?
    ensures FindHold(s, id).value.amount.Valid() && FindHold(s, id).value.amount.amount > 0
  {
  }

  // ---------------------------------------------------------------- release and expire

  /** Releasing gives back exactly what was reserved, at every instant the reservation would have lasted. */
  lemma ReleaseReturns(s: Store, id: Id, c: Clock, fits: bool, a: Id, t: Time)
    requires OutcomeWith(s, Release(id), c, fits).verdict == Done
    ensures FindHold(s, id).Some?
    ensures var s' := OutcomeWith(s, Release(id), c, fits).store;
            var h := FindHold(s, id).value;
            && LedgerBalance(s', a) == LedgerBalance(s, a)
            && Available(s', a, t) ==
               Available(s, a, t) +
               if h.wallet in s.wallets && a == s.wallets[h.wallet] && t < h.expiresAt then h.amount.amount else 0
  {
    hide Booked, ActiveHolds, HoldIndex;
    StatusMoves(s, id, Released, a, t);
  }

  /** Expiring changes no balance from the moment it is done: the aggregate no longer counted the hold. */
  lemma ExpireIsNeutral(s: Store, id: Id, c: Clock, fits: bool, a: Id, t: Time)
    requires OutcomeWith(s, Expire(id), c, fits).verdict == Done && c.checked <= t
    ensures var s' := OutcomeWith(s, Expire(id), c, fits).store;
            LedgerBalance(s', a) == LedgerBalance(s, a) && Available(s', a, t) == Available(s, a, t)
  {
    hide Booked, ActiveHolds, HoldIndex;
    StatusMoves(s, id, Expired, a, t);
  }

  /** Releasing a hold undoes its authorization exactly: every balance at every instant is what it was. */
  lemma ReleaseUndoesAuthorize(s: Store, h: Hold, c: Clock, fits: bool, c': Clock, fits': bool, a: Id, t: Time)
    requires WellFormed(Authorize(h)) && OutcomeWith(s, Authorize(h), c, fits).verdict == Done
    requires var held := OutcomeWith(s, Authorize(h), c, fits).store;
             OutcomeWith(held, Release(h.id), c', fits').verdict == Done
    ensures var held := OutcomeWith(s, Authorize(h), c, fits).store;
            var s' := OutcomeWith(held, Release(h.id), c', fits').store;
            LedgerBalance(s', a) == LedgerBalance(s, a) && Available(s', a, t) == Available(s, a, t)
  {
    hide Booked, ActiveHolds, HoldIndex, HoldKeyIndex, LedgerBalance, Available, SetStatus;
    var held := OutcomeWith(s, Authorize(h), c, fits).store;
    AuthorizeReserves(s, h, c, fits, a, t);
    ReleaseReturns(held, h.id, c', fits', a, t);
    assert FindHold(s, h.id) == None;
    FindAfterAppend(s, h, h.id);
  }
}
