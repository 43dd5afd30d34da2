/** What every operation keeps, whatever its balance test said: unique rows, one key per transaction, one
    outbox event per touched wallet, books that balance in every currency. */
module Bookkeeping {
  import opened Prelude
  import opened Journal
  import opened Transactions
  import opened Ledger
  import opened Balances

  // ---------------------------------------------------------------- conservation

  /** Sum booked on one side, over all accounts, by the entries in one currency. */
  function BookedIn(log: seq<Transaction>, currency: string, d: Direction): int {
    if log == [] then 0
    else
      var tx := log[|log| - 1];
      BookedIn(log[..|log| - 1], currency, d) + if tx.entry.currency == currency then Total(tx.entry.postings, d) else 0
  }

  /** The same for one account. */
  function AccountIn(log: seq<Transaction>, currency: string, a: Id, d: Direction): int {
    if log == [] then 0
    else
      var tx := log[|log| - 1];
      AccountIn(log[..|log| - 1], currency, a, d) +
      if tx.entry.currency == currency then Side(tx.entry.postings, a, d) else 0
  }

  function SumSides(accounts: seq<Id>, ps: seq<Posting>, d: Direction): int {
    if accounts == [] then 0 else Side(ps, accounts[0], d) + SumSides(accounts[1..], ps, d)
  }

  function SumAccounts(accounts: seq<Id>, log: seq<Transaction>, currency: string, d: Direction): int {
    if accounts == [] then 0
    else AccountIn(log, currency, accounts[0], d) + SumAccounts(accounts[1..], log, currency, d)
  }

  lemma {:induction false} BooksBalance(log: seq<Transaction>, currency: string)
    requires ConstructedLog(log)
    ensures BookedIn(log, currency, Debit) == BookedIn(log, currency, Credit)
  {
    if log != [] {
      BooksBalance(log[..|log| - 1], currency);
      assert Constructed(log[|log| - 1]);
    }
  }

  lemma {:induction false} SumSidesAppend(accounts: seq<Id>, ps: seq<Posting>, p: Posting, d: Direction)
    requires Distinct(accounts)
    ensures SumSides(accounts, ps + [p], d) ==
            SumSides(accounts, ps, d) + if p.account in accounts && p.direction == d then p.amount.amount else 0
  {
    if accounts != [] {
      assert (ps + [p])[..|ps + [p]| - 1] == ps;
      SumSidesAppend(accounts[1..], ps, p, d);
      assert accounts == [accounts[0]] + accounts[1..];
    }
  }

  /** Splitting one side by account loses nothing. */
  lemma {:induction false} SidesMakeTotal(accounts: seq<Id>, ps: seq<Posting>, d: Direction)
    requires Distinct(accounts) && forall i :: 0 <= i < |ps| ==> ps[i].account in accounts
    ensures SumSides(accounts, ps, d) == Total(ps, d)
  {
    if ps == [] {
      EmptySides(accounts, d);
    } else {
      SidesMakeTotal(accounts, ps[..|ps| - 1], d);
      SumSidesAppend(accounts, ps[..|ps| - 1], ps[|ps| - 1], d);
      assert ps == ps[..|ps| - 1] + [ps[|ps| - 1]];
    }
  }

  lemma {:induction false} EmptySides(accounts: seq<Id>, d: Direction)
    ensures SumSides(accounts, [], d) == 0
  {
    if accounts != [] { EmptySides(accounts[1..], d); }
  }

  lemma {:induction false} SumAccountsStep(accounts: seq<Id>, log: seq<Transaction>, currency: string, d: Direction)
    requires log != []
    ensures SumAccounts(accounts, log, currency, d) ==
            SumAccounts(accounts, log[..|log| - 1], currency, d) +
            if log[|log| - 1].entry.currency == currency then
              SumSides(accounts, log[|log| - 1].entry.postings, d) else 0
  {
    if accounts != [] { SumAccountsStep(accounts[1..], log, currency, d); }
  }

  lemma {:induction false} NoAccounts(accounts: seq<Id>, currency: string, d: Direction)
    ensures SumAccounts(accounts, [], currency, d) == 0
  {
    if accounts != [] { NoAccounts(accounts[1..], currency, d); }
  }

  lemma {:induction false} AccountsMakeBooks(accounts: seq<Id>, log: seq<Transaction>, currency: string, d: Direction)
    requires Distinct(accounts)
    requires forall i :: 0 <= i < |log| ==> forall a :: a in Accounts(log[i].entry.postings) ==> a in accounts
    ensures SumAccounts(accounts, log, currency, d) == BookedIn(log, currency, d)
  {
    if log == [] {
      NoAccounts(accounts, currency, d);
    } else {
      var tx := log[|log| - 1];
      AccountsMakeBooks(accounts, log[..|log| - 1], currency, d);
      SumAccountsStep(accounts, log, currency, d);
      forall i | 0 <= i < |tx.entry.postings| ensures tx.entry.postings[i].account in accounts {
        assert tx.entry.postings[i].account in Accounts(tx.entry.postings);
      }
      SidesMakeTotal(accounts, tx.entry.postings, d);
    }
  }

  /** Money is conserved: in each currency the balances of all accounts sum to zero. */
  lemma BalancesSumToZero(accounts: seq<Id>, log: seq<Transaction>, currency: string)
    requires ConstructedLog(log) && Distinct(accounts)
    requires forall i :: 0 <= i < |log| ==> forall a :: a in Accounts(log[i].entry.postings) ==> a in accounts
    ensures SumAccounts(accounts, log, currency, Credit) - SumAccounts(accounts, log, currency, Debit) == 0
  {
    BooksBalance(log, currency);
    AccountsMakeBooks(accounts, log, currency, Credit);
    AccountsMakeBooks(accounts, log, currency, Debit);
  }

  // ---------------------------------------------------------------- rows

  predicate DistinctTransactions(log: seq<Transaction>) {
    forall i, k :: 0 <= i < k < |log| ==> log[i].id != log[k].id && log[i].entry.id != log[k].entry.id
  }

  /** No transaction is reversed twice, and every reversal names an earlier transaction. */
  predicate SoundReversals(log: seq<Transaction>) {
    && (forall i, k :: 0 <= i < k < |log| && log[i].reverses.Some? ==> log[i].reverses != log[k].reverses)
    && (forall k :: 0 <= k < |log| && log[k].reverses.Some? ==>
          exists i :: 0 <= i < k && log[i].id == log[k].reverses.value)
  }

  predicate Keyed(keys: map<string, KeyRow>, id: Id) {
    exists key :: key in keys && keys[key].transactionId == id
  }

  /** Idempotency rows and transactions correspond one to one. */
  ghost predicate KeysMatchLog(log: seq<Transaction>, keys: map<string, KeyRow>) {
    && (forall key :: key in keys ==> Logged(log, keys[key].transactionId))
    && (forall key, other :: key in keys && other in keys && key != other ==>
          keys[key].transactionId != keys[other].transactionId)
    && (forall i :: 0 <= i < |log| ==> Keyed(keys, log[i].id))
  }

  /** How many committed transactions touch an account. */
  function Touching(log: seq<Transaction>, a: Id): nat {
    if log == [] then 0
    else Touching(log[..|log| - 1], a) + if a in Accounts(log[|log| - 1].entry.postings) then 1 else 0
  }

  /** Each committed posting left exactly one event for each wallet it touches, and nothing else did. */
  ghost predicate OutboxComplete(s: Store) {
    && (forall w :: w in s.wallets ==> s.outbox[w] == Touching(s.log, s.wallets[w]))
    && (forall w :: w in s.outbox ==> w in s.wallets)
  }

  predicate DistinctHolds(holds: seq<Hold>) {
    forall i, k :: 0 <= i < k < |holds| ==>
      holds[i].id != holds[k].id && !(holds[i].wallet == holds[k].wallet && holds[i].key == holds[k].key)
  }

  predicate KnownAccounts(s: Store) {
    forall i :: 0 <= i < |s.log| ==> Accounts(s.log[i].entry.postings) <= s.accounts
  }

  ghost predicate LedgerInv(s: Store) {
    && SoundRows(s)
    && DistinctTransactions(s.log)
    && SoundReversals(s.log)
    && KnownAccounts(s)
    && KeysMatchLog(s.log, s.keys)
    && OutboxComplete(s)
    && DistinctHolds(s.holds)
  }

  lemma SoundFromLedger(s: Store)
    requires LedgerInv(s)
    ensures SoundRows(s)
  {
  }

  // ---------------------------------------------------------------- inserts keep it

  lemma LogOf(s: Store, tx: Transaction, key: string, hash: string)
    ensures Insert(s, tx, key, hash).log == s.log + [tx]
    ensures (s.log + [tx])[..|s.log + [tx]| - 1] == s.log
  {
  }

  lemma InsertKeepsLog(s: Store, tx: Transaction, key: string, hash: string)
    requires LedgerInv(s) && Constructed(tx) && Insertable(s, tx, key)
    ensures var s' := Insert(s, tx, key, hash);
            SoundRows(s') && DistinctTransactions(s'.log) && SoundReversals(s'.log) && KnownAccounts(s')
  {
    hide KeysMatchLog, OutboxComplete, DistinctHolds, Constructed, TouchedWallets, HasPosting, DistinctIds;
    var s' := Insert(s, tx, key, hash);
    forall i | 0 <= i < |s.log| ensures s.log[i].id != tx.id && s.log[i].entry.id != tx.entry.id {
      assert !HasTransaction(s, tx.id);
    }
    forall k | 0 <= k < |s'.log| && s'.log[k].reverses.Some?
      ensures exists i :: 0 <= i < k && s'.log[i].id == s'.log[k].reverses.value
    {
      if k < |s.log| {
        var i :| 0 <= i < k && s.log[i].id == s.log[k].reverses.value;
        assert s'.log[i].id == s'.log[k].reverses.value;
      } else {
        var i :| 0 <= i < |s.log| && s.log[i].id == tx.reverses.value;
        assert s'.log[i].id == s'.log[k].reverses.value;
      }
    }
    forall i | 0 <= i < |s.log| && s.log[i].reverses.Some? ensures s.log[i].reverses != tx.reverses {
      if tx.reverses.Some? { assert !HasReversalOf(s, tx.reverses.value); }
    }
  }

  lemma InsertKeepsKeys(s: Store, tx: Transaction, key: string, hash: string)
    requires KeysMatchLog(s.log, s.keys) && !Logged(s.log, tx.id) && key !in s.keys
    ensures KeysMatchLog(Insert(s, tx, key, hash).log, Insert(s, tx, key, hash).keys)
  {
    hide TouchedWallets;
    var s' := Insert(s, tx, key, hash);
    assert s'.log[|s.log|].id == tx.id;
    forall id | Logged(s.log, id) ensures Logged(s'.log, id) {
      var i :| 0 <= i < |s.log| && s.log[i].id == id;
      assert s'.log[i].id == id;
    }
    assert s'.keys[key].transactionId == tx.id;
    forall id | Keyed(s.keys, id) ensures Keyed(s'.keys, id) {
      var k :| k in s.keys && s.keys[k].transactionId == id;
      assert s'.keys[k].transactionId == id;
    }
  }

  lemma InsertKeepsOutbox(s: Store, tx: Transaction, key: string, hash: string)
    requires OutboxComplete(s)
    ensures OutboxComplete(Insert(s, tx, key, hash))
  {
    var s' := Insert(s, tx, key, hash);
    LogOf(s, tx, key, hash);
    var touched := TouchedWallets(s, tx);
    forall w | w in s'.wallets ensures s'.outbox[w] == Touching(s'.log, s'.wallets[w]) {
      assert multiset(touched)[w] == if w in touched then 1 else 0;
    }
  }

  lemma InsertKeeps(s: Store, tx: Transaction, key: string, hash: string)
    requires LedgerInv(s) && Constructed(tx) && Insertable(s, tx, key)
    ensures LedgerInv(Insert(s, tx, key, hash))
  {
    hide SoundRows, DistinctTransactions, SoundReversals, KnownAccounts, KeysMatchLog, OutboxComplete, DistinctHolds,
         Constructed, HasEntry, HasPosting, HasReversalOf, DistinctIds, TouchedWallets;
    InsertKeepsLog(s, tx, key, hash);
    InsertKeepsKeys(s, tx, key, hash);
    InsertKeepsOutbox(s, tx, key, hash);
  }

  lemma StatusKeeps(s: Store, id: Id, status: HoldStatus)
    requires LedgerInv(s)
    ensures LedgerInv(SetStatus(s, id, status))
  {
    hide HoldIndex, Constructed, Touching;
    var s' := SetStatus(s, id, status);
    assert s' == s.(holds := s'.holds);
  }

  lemma HoldKeeps(s: Store, h: Hold)
    requires LedgerInv(s) && h.id != 0 && h.amount.Valid() && h.amount.amount > 0
    requires FindHold(s, h.id) == None && FindHoldByKey(s, h.wallet, h.key) == None
    ensures LedgerInv(s.(holds := s.holds + [h]))
  {
    hide HoldIndex, HoldKeyIndex, Constructed, Touching;
    var s' := s.(holds := s.holds + [h]);
    var i, k := HoldIndex(s.holds, h.id), HoldKeyIndex(s.holds, h.wallet, h.key);
    assert i == |s.holds| == k;
  }

  /** Every operation, with its balance test passed or failed, keeps the ledger invariant. */
  lemma {:induction false} OutcomeKeeps(s: Store, op: Op, c: Clock, fits: bool)
    requires LedgerInv(s) && WellFormed(op)
    ensures LedgerInv(OutcomeWith(s, op, c, fits).store)
  {
    hide LedgerInv, HoldIndex, HoldKeyIndex, Insertable, Insert, SetStatus, Constructed, CheckKey;
    match op {
      case Post(tx, key, hash) =>
        if Insertable(s, tx, key) { InsertKeeps(s, tx, key, hash); }
      case Authorize(h) =>
        if FindHold(s, h.id) == None && FindHoldByKey(s, h.wallet, h.key) == None { HoldKeeps(s, h); }
      case Capture(id, tx, key, hash) =>
        if Insertable(s, tx, key) {
          InsertKeeps(s, tx, key, hash);
          StatusKeeps(Insert(s, tx, key, hash), id, Captured);
        }
        StatusKeeps(s, id, Captured);
      case Release(id) => StatusKeeps(s, id, Released);
      case Expire(id) => StatusKeeps(s, id, Expired);
    }
  }

  /** An operation that is not done changes nothing. */
  lemma NotDoneChangesNothing(s: Store, op: Op, c: Clock, fits: bool)
    ensures OutcomeWith(s, op, c, fits).verdict != Done ==> OutcomeWith(s, op, c, fits).store == s
  {
    hide HoldIndex, HoldKeyIndex, Insertable, Insert, SetStatus, CheckKey;
  }
}
