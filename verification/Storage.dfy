/** The database: its tables, the statements the repositories send to it, and rollback. Statements run one
    at a time here; what several sessions do to one another is the subject of Workers. */
module Storage {
  import opened Prelude
  import opened Money
  import opened Journal
  import opened Transactions
  import opened Ledger
  import opened Balances
  import opened Bookkeeping
  import opened Tables

  /** Everything a rollback restores. */
  datatype Contents = Contents(
    transactions: seq<TransactionRow>,
    entries: seq<EntryRow>,
    postings: seq<PostingRow>,
    keys: map<string, KeyRow>,
    holds: seq<Hold>,
    outbox: multiset<Id>)

  datatype Balance = Balance(debits: int64, credits: int64, activeHolds: int64)

  /** One wallet per ledger account: the account column of the wallets table is unique. */
  predicate OneWalletEach(wallets: map<Id, Id>) {
    forall w, v :: w in wallets && v in wallets && wallets[w] == wallets[v] ==> w == v
  }

  /** The tables' check on currency codes. */
  predicate Uppercase(code: string) {
    forall i :: 0 <= i < |code| ==> !('a' <= code[i] <= 'z')
  }

  function Fitting(x: int): Option<int64> {
    if MIN_INT64 <= x <= MAX_INT64 then Some(x) else None
  }

  class Database {
    const accounts: set<Id>
    const wallets: map<Id, Id>
    var transactions: seq<TransactionRow>
    var entries: seq<EntryRow>
    var postings: seq<PostingRow>
    var keys: map<string, KeyRow>
    var holds: seq<Hold>
    var outbox: multiset<Id>
    /** Accounts whose wallet row was locked, in the order of locking. */
    var locks: seq<Id>
    /** The transactions committed so far, which the rows spell out. */
    ghost var log: seq<Transaction>

    constructor (accounts: set<Id>, wallets: map<Id, Id>)
      requires OneWalletEach(wallets)
      ensures Valid()
      ensures View() == Store(accounts, wallets, [], map[], [], multiset{})
    {
      this.accounts, this.wallets := accounts, wallets;
      transactions, entries, postings, keys, holds, outbox, locks, log := [], [], [], map[], [], multiset{}, [], [];
    }

    function Save(): Contents
      reads this
    {
      Contents(transactions, entries, postings, keys, holds, outbox)
    }

    ghost function View(): Store
      reads this
    {
      Store(accounts, wallets, log, keys, holds, outbox)
    }

    ghost predicate Tabulated()
      reads this
    {
      && transactions == TransactionTable(log)
      && entries == EntryTable(log)
      && postings == PostingTable(log)
      && OneWalletEach(wallets)
    }

    ghost predicate Valid()
      reads this
    {
      Tabulated() && LedgerInv(View())
    }

    method Rollback(saved: Contents)
      modifies this
      ensures Save() == saved && log == old(log)
    {
      transactions, entries, postings := saved.transactions, saved.entries, saved.postings;
      keys, holds, outbox := saved.keys, saved.holds, saved.outbox;
    }

    // ---------------------------------------------------------------- inserts

    method CreateTransaction(row: TransactionRow) returns (ok: bool)
      modifies this
      ensures ok <==>
              && !TransactionIn(old(transactions), row.id)
              && (row.reverses.Some? ==>
                    && row.reverses.value != row.id
                    && TransactionIn(old(transactions), row.reverses.value)
                    && !ReversalIn(old(transactions), row.reverses.value))
      ensures Save() == if ok then old(Save()).(transactions := old(transactions) + [row]) else old(Save())
      ensures log == old(log)
    {
      if TransactionIn(transactions, row.id) { return false; }
      if row.reverses.Some? {
        var original := row.reverses.value;
        if original == row.id || !TransactionIn(transactions, original) || ReversalIn(transactions, original) {
          return false;
        }
      }
      transactions := transactions + [row];
      return true;
    }

    method CreateJournalEntry(row: EntryRow) returns (ok: bool)
      modifies this
      ensures ok <==>
              && !EntryIn(old(entries), row.id)
              && !EntryOfIn(old(entries), row.transactionId)
              && TransactionIn(old(transactions), row.transactionId)
              && Uppercase(row.currency)
      ensures Save() == if ok then old(Save()).(entries := old(entries) + [row]) else old(Save())
      ensures log == old(log)
    {
      if EntryIn(entries, row.id) || EntryOfIn(entries, row.transactionId) ||
         !TransactionIn(transactions, row.transactionId) || !Uppercase(row.currency)
      {
        return false;
      }
      entries := entries + [row];
      return true;
    }

    method CreatePosting(row: PostingRow) returns (ok: bool)
      modifies this
      ensures ok <==>
              && !PostingIn(old(postings), row.id)
              && EntryIn(old(entries), row.entryId)
              && row.account in accounts
              && row.direction != Other
              && row.amount > 0
      ensures Save() == if ok then old(Save()).(postings := old(postings) + [row]) else old(Save())
      ensures log == old(log)
    {
      if PostingIn(postings, row.id) || !EntryIn(entries, row.entryId) || row.account !in accounts ||
         row.direction == Other || row.amount <= 0
      {
        return false;
      }
      postings := postings + [row];
      return true;
    }

    method CreateOutboxEvent(wallet: Id)
      modifies this
      ensures Save() == old(Save()).(outbox := old(outbox) + multiset{wallet})
      ensures log == old(log)
    {
      outbox := outbox + multiset{wallet};
    }

    method CreateIdempotencyKey(key: string, row: KeyRow) returns (ok: bool)
      modifies this
      ensures ok <==>
              && key !in old(keys)
              && (forall k :: k in old(keys) ==> old(keys)[k].transactionId != row.transactionId)
              && TransactionIn(old(transactions), row.transactionId)
      ensures Save() == if ok then old(Save()).(keys := old(keys)[key := row]) else old(Save())
      ensures log == old(log)
    {
      if key in keys || (exists k :: k in keys && keys[k].transactionId == row.transactionId) ||
         !TransactionIn(transactions, row.transactionId)
      {
        return false;
      }
      keys := keys[key := row];
      return true;
    }

    method CreateWalletHold(h: Hold) returns (ok: bool)
      modifies this
      ensures ok <==>
              && h.wallet in wallets
              && h.amount.amount > 0 && Uppercase(h.amount.currency) && Recordable(h)
              && HoldIndex(old(holds), h.id) == |old(holds)|
              && HoldKeyIndex(old(holds), h.wallet, h.key) == |old(holds)|
      ensures Save() == if ok then old(Save()).(holds := old(holds) + [h]) else old(Save())
      ensures log == old(log)
    {
      if h.wallet !in wallets || h.amount.amount <= 0 || !Uppercase(h.amount.currency) || !Recordable(h) ||
         HoldIndex(holds, h.id) < |holds| || HoldKeyIndex(holds, h.wallet, h.key) < |holds|
      {
        return false;
      }
      holds := holds + [h];
      return true;
    }

    /** The guarded update: the number of rows affected is 1 when the hold was authorized, else 0. */
    method UpdateWalletHoldStatus(id: Id, status: HoldStatus) returns (rows: nat)
      modifies this
      ensures log == old(log)
      ensures View() == SetStatus(old(View()), id, status)
      ensures Save() == old(Save()).(holds := holds)
      ensures rows == if FindHold(old(View()), id).Some? && FindHold(old(View()), id).value.status == Authorized
                      then 1 else 0
    {
      var i := HoldIndex(holds, id);
      if i == |holds| || holds[i].status != Authorized { return 0; }
      holds := holds[i := holds[i].(status := status)];
      return 1;
    }

    // ---------------------------------------------------------------- queries

    function GetWalletHoldByID(id: Id): Option<Hold>
      reads this
    {
      var i := HoldIndex(holds, id);
      if i < |holds| then Some(holds[i]) else None
    }

    function GetWalletHoldByIdempotencyKey(wallet: Id, key: string): Option<Hold>
      reads this
    {
      var i := HoldKeyIndex(holds, wallet, key);
      if i < |holds| then Some(holds[i]) else None
    }

    /** The row lock is granted at once here; the row, when there is one, names the account's wallet. */
    method LockWalletByLedgerAccountID(account: Id) returns (wallet: Option<Id>)
      requires OneWalletEach(wallets)
      modifies this`locks
      ensures wallet.Some? <==> account in wallets.Values
      ensures wallet.Some? ==> wallet.value in wallets && wallets[wallet.value] == account
      ensures locks == old(locks) + if wallet.Some? then [account] else []
    {
      if w :| w in wallets && wallets[w] == account {
        locks := locks + [account];
        return Some(w);
      }
      return None;
    }

    /** The aggregate over postings and active holds at NOW(). Each sum is cast to BIGINT, and the query fails
        when one does not fit. */
    method GetLedgerBalance(account: Id, now: Time) returns (balance: Option<Balance>)
      requires Valid()
      ensures balance.Some? <==>
              && Booked(log, account, Credit) <= MAX_INT64 && Booked(log, account, Debit) <= MAX_INT64
              && ActiveHolds(wallets, holds, account, now) <= MAX_INT64
      ensures balance.Some? ==>
              && balance.value.credits == Booked(log, account, Credit)
              && balance.value.debits == Booked(log, account, Debit)
              && balance.value.activeHolds == ActiveHolds(wallets, holds, account, now)
    {
      hide KeysMatchLog, OutboxComplete, DistinctHolds, KnownAccounts, SoundReversals, DistinctTransactions,
           PostingTable, Booked;
      var debits, credits, held := 0, 0, 0;
      for i := 0 to |postings|
        invariant debits == RowSide(postings[..i], account, Debit)
        invariant credits == RowSide(postings[..i], account, Credit)
      {
        assert postings[..i + 1][..i] == postings[..i];
        if postings[i].account == account && postings[i].direction == Debit { debits := debits + postings[i].amount; }
        if postings[i].account == account && postings[i].direction == Credit {
          credits := credits + postings[i].amount;
        }
      }
      for i := 0 to |holds|
        invariant held == ActiveHolds(wallets, holds[..i], account, now)
      {
        assert holds[..i + 1][..i] == holds[..i];
        var h := holds[i];
        if h.wallet in wallets && wallets[h.wallet] == account && h.status == Authorized && h.expiresAt > now {
          held := held + h.amount.amount;
        }
      }
      assert postings[..|postings|] == postings && holds[..|holds|] == holds;
      TableSums(log, account, Debit);
      TableSums(log, account, Credit);
      SumsNonNegative(View(), account, now);
      var d, c, h := Fitting(debits), Fitting(credits), Fitting(held);
      if d == None || c == None || h == None { return None; }
      return Some(Balance(d.value, c.value, h.value));
    }

    /** The postings of one entry, joined and ordered by posting id. */
    method JoinPostings(t: TransactionRow, e: EntryRow) returns (rows: seq<DetailRow>)
      ensures OrderedByPosting(rows)
      ensures multiset(rows) == multiset(Join(t, e, OfEntry(postings, e.id)))
    {
      rows := [];
      for i := 0 to |postings|
        invariant OrderedByPosting(rows)
        invariant multiset(rows) == multiset(Join(t, e, OfEntry(postings[..i], e.id)))
      {
        assert postings[..i + 1][..i] == postings[..i];
        ghost var before := OfEntry(postings[..i], e.id);
        assert OfEntry(postings[..i + 1], e.id) == before + if postings[i].entryId == e.id then [postings[i]] else [];
        assert before + [] == before;
        if postings[i].entryId == e.id {
          assert Join(t, e, before + [postings[i]]) == Join(t, e, before) + [DetailRow(t, e, postings[i])];
          rows := InsertRow(rows, DetailRow(t, e, postings[i]));
        }
      }
      assert postings[..|postings|] == postings;
    }

    method FindTransaction(id: Id) returns (row: Option<TransactionRow>)
      requires Tabulated() && DistinctTransactions(log)
      ensures row == None <==> !HasTransaction(View(), id)
      ensures forall k :: 0 <= k < |log| && log[k].id == id ==> row == Some(TransactionRowOf(log[k]))
    {
      for i := 0 to |transactions|
        invariant forall k :: 0 <= k < i ==> log[k].id != id
      {
        if transactions[i].id == id { return Some(transactions[i]); }
      }
      return None;
    }

    method FindEntry(transactionId: Id) returns (row: Option<EntryRow>)
      requires Tabulated() && DistinctTransactions(log)
      ensures row == None <==> !HasTransaction(View(), transactionId)
      ensures forall k :: 0 <= k < |log| && log[k].id == transactionId ==> row == Some(EntryRowOf(log[k]))
    {
      for i := 0 to |entries|
        invariant forall k :: 0 <= k < i ==> log[k].id != transactionId
      {
        if entries[i].transactionId == transactionId { return Some(entries[i]); }
      }
      return None;
    }

    /** The three-way join of one transaction, ordered by posting id. The primary key and the unique entry per
        transaction leave at most one transaction row and one entry row to join. */
    method GetTransactionDetails(id: Id) returns (rows: seq<DetailRow>)
      requires Valid()
      ensures OrderedByPosting(rows)
      ensures forall k :: 0 <= k < |log| && log[k].id == id ==> multiset(rows) == multiset(Details(log[k]))
      ensures !HasTransaction(View(), id) ==> rows == []
    {
      hide SoundRows, SoundReversals, KnownAccounts, KeysMatchLog, OutboxComplete, DistinctHolds, PostingTable, OfEntry,
           EntryPostings, Join, OrderedByPosting, TransactionTable, EntryTable;
      NothingIsOrdered();
      rows := [];
      var t := FindTransaction(id);
      var e := FindEntry(id);
      if t.Some? && e.Some? {
        rows := JoinPostings(t.value, e.value);
        forall k | 0 <= k < |log| && log[k].id == id ensures multiset(rows) == multiset(Details(log[k])) {
          JoinFindsEntry(log, k);
        }
      }
    }
  }

  lemma NothingIsOrdered()
    ensures OrderedByPosting([])
  {
  }
}
