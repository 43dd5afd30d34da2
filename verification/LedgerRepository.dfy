/** Posting a transaction: lock the wallets in account order, check the idempotency key, read and test the
    balances, write the rows, and roll everything back when a statement fails. */
module LedgerRepository {
  import opened Prelude
  import opened Money
  import opened Journal
  import opened Transactions
  import opened Ledger
  import opened Balances
  import opened Bookkeeping
  import opened Tables
  import opened Storage
  import opened Workers

  // ---------------------------------------------------------------- lock order

  lemma {:induction false} IncreasingUnique(xs: seq<Id>, ys: seq<Id>)
    requires StrictlyIncreasing(xs) && StrictlyIncreasing(ys)
    requires forall x :: x in xs <==> x in ys
    ensures xs == ys
  {
    assert |ys| > 0 ==> ys[0] in xs;
    assert |xs| > 0 ==> xs[0] in ys;
    if xs != [] {
      FirstIsLeast(xs, ys[0]);
      FirstIsLeast(ys, xs[0]);
      forall x ensures x in xs[1..] <==> x in ys[1..] {
        if x in xs[1..] { FirstIsLeast(xs, x); assert x in ys; }
        if x in ys[1..] { FirstIsLeast(ys, x); assert x in xs; }
      }
      IncreasingUnique(xs[1..], ys[1..]);
    }
  }

  /** Insertion sort of distinct keys. */
  method SortKeys(keys: seq<Id>) returns (sorted: seq<Id>)
    ensures StrictlyIncreasing(sorted)
    ensures forall x :: x in sorted <==> x in keys
  {
    sorted := [];
    for i := 0 to |keys|
      invariant StrictlyIncreasing(sorted)
      invariant forall x :: x in sorted <==> x in keys[..i]
    {
      sorted := InsertSorted(sorted, keys[i]);
    }
    assert keys[..|keys|] == keys;
  }

  /** The distinct account keys are collected in a map, listed in the map's arbitrary order, and sorted: the
      result does not depend on that order. */
  method AccountKeys(tx: Transaction) returns (keys: seq<Id>)
    ensures keys == SortedAccounts(tx.entry.postings)
  {
    var ps := tx.entry.postings;
    var accountIds: set<Id> := {};
    for i := 0 to |ps|
      invariant accountIds == Accounts(ps[..i])
    {
      assert ps[..i + 1] == ps[..i] + [ps[i]];
      AccountsAppend(ps[..i], ps[i]);
      accountIds := accountIds + {ps[i].account};
    }
    assert ps[..|ps|] == ps;
    keys := [];
    var rest := accountIds;
    while rest != {}
      invariant rest <= accountIds
      invariant forall a :: a in keys <==> a in accountIds - rest
      decreases rest
    {
      var a :| a in rest;
      keys, rest := keys + [a], rest - {a};
    }
    keys := SortKeys(keys);
    IncreasingUnique(keys, SortedAccounts(ps));
  }

  /** The accounts of a list that have a wallet, in the order of the list. */
  function OfWallets(accounts: seq<Id>, wallets: map<Id, Id>): seq<Id> {
    if accounts == [] then []
    else
      var last := accounts[|accounts| - 1];
      OfWallets(accounts[..|accounts| - 1], wallets) + if last in wallets.Values then [last] else []
  }

  lemma NoneOfWallets(wallets: map<Id, Id>)
    ensures OfWallets([], wallets) == []
  {
  }

  lemma NextOfWallets(accounts: seq<Id>, i: nat, wallets: map<Id, Id>)
    requires i < |accounts|
    ensures OfWallets(accounts[..i + 1], wallets) ==
            OfWallets(accounts[..i], wallets) + if accounts[i] in wallets.Values then [accounts[i]] else []
  {
    assert accounts[..i + 1][..i] == accounts[..i];
  }

  // ---------------------------------------------------------------- rows

  /** What the posting inserts need of the tables. */
  predicate Postable(rows: seq<PostingRow>, accounts: set<Id>, ps: seq<Posting>) {
    && DistinctIds(ps)
    && Accounts(ps) <= accounts
    && forall i :: 0 <= i < |ps| ==> !PostingIn(rows, ps[i].id)
  }

  lemma DistinctNext(ps: seq<Posting>, p: Posting)
    ensures DistinctIds(ps + [p]) <==> DistinctIds(ps) && forall k :: 0 <= k < |ps| ==> ps[k].id != p.id
  {
    var qs := ps + [p];
    assert forall k :: 0 <= k < |ps| ==> qs[k] == ps[k];
    assert qs[|ps|] == p;
  }

  lemma WrittenIds(j: JournalEntry, i: nat, id: Id)
    requires i <= |j.postings|
    ensures PostingIn(EntryPostings(j)[..i], id) <==> exists k :: 0 <= k < i && j.postings[k].id == id
  {
    var written := EntryPostings(j)[..i];
    assert forall k :: 0 <= k < i ==> written[k].id == j.postings[k].id;
  }

  lemma PostableNext(rows: seq<PostingRow>, accounts: set<Id>, j: JournalEntry, i: nat)
    requires i < |j.postings| && Postable(rows, accounts, j.postings[..i])
    ensures Postable(rows, accounts, j.postings[..i + 1]) <==>
            && !PostingIn(rows + EntryPostings(j)[..i], j.postings[i].id)
            && j.postings[i].account in accounts
  {
    hide PostingIn, EntryPostings, DistinctIds, Accounts;
    var ps := j.postings;
    assert ps[..i + 1] == ps[..i] + [ps[i]];
    AccountsAppend(ps[..i], ps[i]);
    DistinctNext(ps[..i], ps[i]);
    WrittenIds(j, i, ps[i].id);
    PostingInConcat(rows, EntryPostings(j)[..i], ps[i].id);
    assert forall k :: 0 <= k < i ==> ps[..i + 1][k] == ps[..i][k] == ps[k];
  }

  lemma PostableMonotone(rows: seq<PostingRow>, accounts: set<Id>, ps: seq<Posting>, i: nat)
    requires i <= |ps| && Postable(rows, accounts, ps)
    ensures Postable(rows, accounts, ps[..i])
  {
    assert forall k :: 0 <= k < i ==> ps[..i][k].account in Accounts(ps);
  }

  class TransactionRepository {
    const db: Database

    constructor (db: Database)
      ensures this.db == db
    {
      this.db := db;
    }

    /** Absent is a key never recorded, and Replay the very row this request would record. */
    function CheckIdempotency(tx: Transaction, key: string, hash: string): (v: KeyVerdict)
      reads db
      ensures v == Absent <==> key !in db.keys
      ensures v == Replay <==> key in db.keys && db.keys[key] == KeyRow(hash, tx.id)
    {
      if key !in db.keys then Absent
      else
        var existing := db.keys[key];
        if existing.hash != hash || existing.transactionId != tx.id then Conflict else Replay
    }

    /** Lock the wallets of the entry's accounts in ascending account order; accounts without a wallet are
        skipped. */
    method LockWalletAccounts(tx: Transaction) returns (locked: map<Id, Id>)
      requires db.Valid()
      modifies db`locks
      ensures db.locks == old(db.locks) + OfWallets(SortedAccounts(tx.entry.postings), db.wallets)
      ensures locked.Keys == Accounts(tx.entry.postings) * db.wallets.Values
      ensures forall a :: a in locked ==> locked[a] in db.wallets && db.wallets[locked[a]] == a
    {
      hide LedgerInv, TransactionTable, EntryTable, PostingTable, OfWallets, SortedAccounts;
      var accountKeys := AccountKeys(tx);
      locked := map[];
      NoneOfWallets(db.wallets);
      assert accountKeys[..0] == [];
      for i := 0 to |accountKeys|
        invariant db.locks == old(db.locks) + OfWallets(accountKeys[..i], db.wallets)
        invariant forall a :: a in locked <==> a in accountKeys[..i] && a in db.wallets.Values
        invariant forall a :: a in locked ==> locked[a] in db.wallets && db.wallets[locked[a]] == a
      {
        var wallet := db.LockWalletByLedgerAccountID(accountKeys[i]);
        if wallet.Some? { locked := locked[accountKeys[i] := wallet.value]; }
        NextOfWallets(accountKeys, i, db.wallets);
        assert accountKeys[..i + 1] == accountKeys[..i] + [accountKeys[i]];
      }
      assert accountKeys[..|accountKeys|] == accountKeys;
    }

    /** The projected balance of one locked account, in raw 64-bit additions. */
    method TestBalance(tx: Transaction, account: Id, delta: int64, now: Time) returns (ok: bool)
      requires db.Valid() && delta == Delta(tx.entry.postings, account)
      ensures ok <==> Accepts64(db.View(), Ledger.Post(tx, "", ""), account, now)
    {
      hide LedgerInv, Booked, ActiveHolds, Wrap, Delta;
      WrapUnique(delta, delta, 0);
      var balance := db.GetLedgerBalance(account, now);
      if balance.None? { return false; }
      var b := balance.value;
      var projected := Wrap(Wrap(Wrap(b.credits - b.debits) + Wrap(0 - b.activeHolds)) + delta);
      return projected >= 0;
    }

    /** Test every locked account, in the map's arbitrary order. */
    method ValidateWalletBalances(tx: Transaction, locked: map<Id, Id>, now: Time) returns (ok: bool)
      requires db.Valid() && Constructed(tx) && locked.Keys <= Accounts(tx.entry.postings)
      ensures ok <==> forall a :: a in locked ==> Accepts64(db.View(), Ledger.Post(tx, "", ""), a, now)
    {
      hide LedgerInv, Accepts64, Delta;
      var deltas := DeltasByAccount(tx.entry);
      var rest := locked.Keys;
      while rest != {}
        invariant rest <= locked.Keys
        invariant forall a :: a in locked.Keys - rest ==> Accepts64(db.View(), Ledger.Post(tx, "", ""), a, now)
        decreases rest
      {
        var a :| a in rest;
        var passed := TestBalance(tx, a, deltas[a], now);
        if !passed { return false; }
        rest := rest - {a};
      }
      return true;
    }

    /** One event for each distinct locked wallet. */
    method CreateOutboxEvents(locked: map<Id, Id>)
      modifies db
      ensures db.Save() == old(db.Save()).(outbox := old(db.outbox) + multiset(locked.Values))
      ensures db.log == old(db.log)
    {
      var seen: set<Id> := {};
      var rest := locked.Keys;
      while rest != {}
        invariant rest <= locked.Keys
        invariant forall w :: w in seen <==> exists a :: a in locked.Keys - rest && locked[a] == w
        invariant db.Save() == old(db.Save()).(outbox := old(db.outbox) + multiset(seen))
        invariant db.log == old(db.log)
        decreases rest
      {
        var a :| a in rest;
        var w := locked[a];
        if w !in seen {
          db.CreateOutboxEvent(w);
          assert multiset(seen + {w}) == multiset(seen) + multiset{w};
          seen := seen + {w};
        }
        rest := rest - {a};
      }
      assert seen == locked.Values;
    }

    method CreatePostings(j: JournalEntry) returns (ok: bool)
      requires AllValid(j.postings, j.currency) && EntryIn(db.entries, j.id)
      modifies db
      ensures ok <==> Postable(old(db.postings), db.accounts, j.postings)
      ensures ok ==> db.Save() == old(db.Save()).(postings := old(db.postings) + EntryPostings(j))
      ensures db.log == old(db.log)
    {
      ghost var before := db.postings;
      var rows := EntryPostings(j);
      for i := 0 to |j.postings|
        invariant db.Save() == old(db.Save()).(postings := before + rows[..i])
        invariant db.log == old(db.log)
        invariant Postable(before, db.accounts, j.postings[..i])
      {
        PostableNext(before, db.accounts, j, i);
        if Postable(before, db.accounts, j.postings) { PostableMonotone(before, db.accounts, j.postings, i + 1); }
        var created := db.CreatePosting(rows[i]);
        if !created { return false; }
        assert before + rows[..i] + [rows[i]] == before + rows[..i + 1];
      }
      assert j.postings[..|j.postings|] == j.postings && rows[..|j.postings|] == rows;
      return true;
    }

    /** The transaction, its entry and its postings, in this order; any refused row fails the whole insert. */
    method InsertRows(tx: Transaction, ghost key: string) returns (ok: bool)
      requires db.Valid() && Constructed(tx) && key !in db.keys
      modifies db
      ensures ok <==> Insertable(old(db.View()), tx, key)
      ensures ok ==> db.Save() == old(db.Save()).(
                       transactions := TransactionTable(old(db.log) + [tx]),
                       entries := EntryTable(old(db.log) + [tx]),
                       postings := PostingTable(old(db.log) + [tx]))
      ensures db.log == old(db.log)
    {
      hide LedgerInv, TransactionIn, ReversalIn, EntryIn, EntryOfIn, PostingIn, TransactionTable, EntryTable,
           PostingTable, DistinctIds, HasTransaction, HasReversalOf, HasEntry, HasPosting, ValidEntry;
      ghost var s := db.View();
      IndexesMatchLog(s, tx.id);
      IndexesMatchLog(s, tx.entry.id);
      if tx.reverses.Some? { IndexesMatchLog(s, tx.reverses.value); }
      forall i | 0 <= i < |tx.entry.postings|
        ensures PostingIn(PostingTable(s.log), tx.entry.postings[i].id) <==> HasPosting(s, tx.entry.postings[i].id)
      {
        IndexesMatchLog(s, tx.entry.postings[i].id);
      }
      TablesAppend(s.log, tx);
      assert AllValid(tx.entry.postings, tx.entry.currency) && Uppercase(tx.entry.currency) by { ValidPostings(tx); }
      var row := TransactionRowOf(tx);
      var created := db.CreateTransaction(row);
      if !created { return false; }
      LastTransactionIn(TransactionTable(s.log), row);
      var entry := EntryRowOf(tx);
      created := db.CreateJournalEntry(entry);
      if !created { return false; }
      LastEntryIn(EntryTable(s.log), entry);
      ok := CreatePostings(tx.entry);
    }

    /** All the rows of a posting: transaction, entry, postings, events, and last the idempotency key. The key
        insert cannot fail alone here: with the key checked, only another session could have taken it. */
    method WriteRows(tx: Transaction, key: string, hash: string, locked: map<Id, Id>) returns (ok: bool)
      requires db.Valid() && Constructed(tx) && key !in db.keys
      requires locked.Keys == Accounts(tx.entry.postings) * db.wallets.Values
      requires forall a :: a in locked ==> locked[a] in db.wallets && db.wallets[locked[a]] == a
      modifies db
      ensures ok <==> Insertable(old(db.View()), tx, key)
      ensures !ok ==> db.log == old(db.log)
      ensures ok ==> db.Valid() && db.View() == Insert(old(db.View()), tx, key, hash)
    {
      hide LedgerInv, TransactionTable, EntryTable, PostingTable, Insertable, Constructed, TouchedWallets;
      ghost var s := db.View();
      ok := InsertRows(tx, key);
      if !ok { return; }
      CreateOutboxEvents(locked);
      EventsAreTouched(s, tx, locked);
      KeyIsNew(s, tx, key);
      var keyed := db.CreateIdempotencyKey(key, KeyRow(hash, tx.id));
      if !keyed { assert false; }
      db.log := db.log + [tx];
      InsertKeeps(s, tx, key, hash);
    }

    /** What both Post and Capture run once they are inside a database transaction. */
    method PostInTransaction(tx: Transaction, key: string, hash: string, now: Time) returns (verdict: Verdict)
      requires db.Valid() && Constructed(tx)
      modifies db
      ensures var s := old(db.View());
              var outcome := PostOutcome(s, tx, key, hash, Fits64(s, Ledger.Post(tx, key, hash), now));
              && verdict == outcome.verdict
              && (verdict.Refused? ==> db.log == old(db.log))
              && (!verdict.Refused? ==> db.Valid() && db.View() == outcome.store)
    {
      hide LedgerInv, Accepts64, TransactionTable, EntryTable, PostingTable, Insertable, Insert, Constructed, Fits64;
      ghost var s := db.View();
      var locked := LockWalletAccounts(tx);
      var recorded := CheckIdempotency(tx, key, hash);
      if recorded == Conflict { return Refused(IdempotencyConflict); }
      if recorded == Replay { return Replayed; }
      var passed := ValidateWalletBalances(tx, locked, now);
      SameTest(s, tx, key, hash, now);
      if !passed { return Refused(InsufficientBalance); }
      var written := WriteRows(tx, key, hash, locked);
      if !written { return Refused(ConstraintViolation); }
      return Done;
    }

    /** Posting is the specified operation, whole: a refusal leaves no row behind. */
    method Post(tx: Transaction, key: string, hash: string, now: Time) returns (verdict: Verdict)
      requires db.Valid() && Constructed(tx)
      modifies db
      ensures db.Valid()
      ensures Outcome(db.View(), verdict) == Apply64(old(db.View()), Ledger.Post(tx, key, hash), Clock(now, now))
    {
      hide LedgerInv, Fits64, Insertable, Constructed, TransactionTable, EntryTable, PostingTable;
      var recorded := CheckIdempotency(tx, key, hash);
      if recorded == Conflict { return Refused(IdempotencyConflict); }
      if recorded == Replay { return Replayed; }
      var saved := db.Save();
      verdict := PostInTransaction(tx, key, hash, now);
      if verdict.Refused? { db.Rollback(saved); }
    }

    /** Rebuild the postings row by row; a stored row never fails its validation. */
    method ReadPostings(rows: seq<DetailRow>, ghost tx: Transaction) returns (postings: seq<Posting>)
      requires rows != [] && NonNegativeRows(rows)
      requires forall i :: 0 <= i < |rows| ==>
                 rows[i].entry == EntryRowOf(tx) && Rebuilt(tx.entry.currency, rows[i]).Valid()
      ensures postings == RebuiltAll(tx.entry.currency, rows)
    {
      var first := rows[0];
      postings := [];
      for i := 0 to |rows|
        invariant postings == RebuiltAll(tx.entry.currency, rows)[..i]
      {
        var amount := NewMoney(first.entry.currency, rows[i].posting.amount);
        assert Rebuilt(tx.entry.currency, rows[i]).Valid();
        if amount.Err? { assert false; }
        var p := Posting(rows[i].posting.id, rows[i].posting.account, rows[i].posting.direction, amount.value);
        assert p == Rebuilt(tx.entry.currency, rows[i]);
        var valid := p.Validate();
        if valid.Err? { assert false; }
        postings := postings + [p];
      }
    }

    /** Everything ever posted is rebuilt without a validation error, the same up to the order of its postings,
        which come back in id order. */
    method GetAggregate(id: Id) returns (r: Result<Transaction, ReadFailure>)
      requires db.Valid()
      ensures r == Err(TransactionNotFound) <==> !HasTransaction(db.View(), id)
      ensures !r.Err? || r.error == TransactionNotFound
      ensures forall k :: 0 <= k < |db.log| && db.log[k].id == id ==>
                && r.Ok? && SameUpToOrder(r.value, db.log[k])
                && Constructed(r.value) && OrderedById(r.value.entry.postings)
    {
      hide SoundReversals, KnownAccounts, KeysMatchLog, OutboxComplete, DistinctHolds, PostingTable, TransactionTable,
           EntryTable, Details, ValidEntry, ConstructedHolds, SameUpToOrder, Trim;
      var rows := db.GetTransactionDetails(id);
      ghost var k: nat := 0;
      if |rows| == 0 {
        if HasTransaction(db.View(), id) {
          k :| k < |db.log| && db.log[k].id == id;
          RowsRebuild(db.log[k], rows);
          assert false;
        }
        return Err(TransactionNotFound);
      }
      k :| k < |db.log| && db.log[k].id == id;
      ghost var tx := db.log[k];
      RowsRebuild(tx, rows);
      var first := rows[0];
      var postings := ReadPostings(rows, tx);
      var entry := JournalEntry(first.entry.id, first.transaction.id, first.entry.currency, postings);
      var t := Reconstitute(first.transaction.id, first.transaction.description, entry, first.transaction.reverses);
      assert Transaction(tx.id, tx.description, entry, tx.reverses) == tx.(entry := entry);
      if t.Err? { assert false; }
      OnlyOne(db.View(), k);
      return Ok(t.value);
    }
  }

  lemma OnlyOne(s: Store, k: nat)
    requires LedgerInv(s) && k < |s.log|
    ensures forall i :: 0 <= i < |s.log| && s.log[i].id == s.log[k].id ==> i == k
  {
  }

  datatype ReadFailure = TransactionNotFound | Malformed(error: DomainError)

  /** The same transaction with its postings in another order. */
  predicate SameUpToOrder(t: Transaction, tx: Transaction) {
    && t.(entry := t.entry.(postings := [])) == tx.(entry := tx.entry.(postings := []))
    && multiset(t.entry.postings) == multiset(tx.entry.postings)
  }

  predicate OrderedById(ps: seq<Posting>) {
    forall i, k :: 0 <= i < k < |ps| ==> ps[i].id <= ps[k].id
  }

  /** Whatever order the rows come back in, they rebuild a valid transaction. */
  lemma RowsRebuild(tx: Transaction, rows: seq<DetailRow>)
    requires Constructed(tx) && multiset(rows) == multiset(Details(tx))
    ensures rows != [] && NonNegativeRows(rows)
    ensures forall i :: 0 <= i < |rows| ==>
              rows[i].transaction == TransactionRowOf(tx) && rows[i].entry == EntryRowOf(tx) &&
              Rebuilt(tx.entry.currency, rows[i]).Valid()
    ensures var entry := tx.entry.(postings := RebuiltAll(tx.entry.currency, rows));
            SameUpToOrder(tx.(entry := entry), tx) && Constructed(tx.(entry := entry))
  {
    RebuiltDetails(tx);
    var details := Details(tx);
    assert |multiset(rows)| == |rows| && |multiset(details)| == |details|;
    forall i | 0 <= i < |rows| ensures rows[i] in details {
      assert rows[i] in multiset(rows);
      assert rows[i] in multiset(details);
    }
    forall i | 0 <= i < |rows| ensures rows[i].posting.amount >= 0 && Rebuilt(tx.entry.currency, rows[i]).Valid() {
      var k :| 0 <= k < |details| && details[k] == rows[i];
      assert RebuiltAll(tx.entry.currency, details)[k] == tx.entry.postings[k];
      assert tx.entry.postings[k].Valid();
    }
    RebuiltPermuted(tx.entry.currency, rows, details);
    ValidEntryPermuted(tx.entry, tx.entry.(postings := RebuiltAll(tx.entry.currency, rows)));
  }

  lemma ValidPostings(tx: Transaction)
    requires Constructed(tx)
    ensures AllValid(tx.entry.postings, tx.entry.currency) && Uppercase(tx.entry.currency)
  {
    assert tx.entry.postings[0].amount.Valid();
  }

  lemma LastTransactionIn(rows: seq<TransactionRow>, row: TransactionRow)
    ensures TransactionIn(rows + [row], row.id)
  {
    assert (rows + [row])[|rows|].id == row.id;
  }

  lemma LastEntryIn(rows: seq<EntryRow>, row: EntryRow)
    ensures EntryIn(rows + [row], row.id)
  {
    assert (rows + [row])[|rows|].id == row.id;
  }

  /** The balance test looks at the entry and the locked accounts only. */
  lemma SameTest(s: Store, tx: Transaction, key: string, hash: string, now: Time)
    ensures Fits64(s, Ledger.Post(tx, key, hash), now) <==>
            forall a :: a in Accounts(tx.entry.postings) * s.wallets.Values ==>
              Accepts64(s, Ledger.Post(tx, "", ""), a, now)
  {
    hide Wrap, Booked, ActiveHolds, Delta, Readable;
    var op, plain := Ledger.Post(tx, key, hash), Ledger.Post(tx, "", "");
    assert Guarded(s, op) == Accounts(tx.entry.postings) * s.wallets.Values;
    forall a: Id ensures Accepts64(s, op, a, now) == Accepts64(s, plain, a, now) {
      assert Effect(op, a) == Effect(plain, a);
    }
  }

  /** The locked wallets are exactly the wallets the entry touches. */
  lemma EventsAreTouched(s: Store, tx: Transaction, locked: map<Id, Id>)
    requires OneWalletEach(s.wallets)
    requires locked.Keys == Accounts(tx.entry.postings) * s.wallets.Values
    requires forall a :: a in locked ==> locked[a] in s.wallets && s.wallets[locked[a]] == a
    ensures locked.Values == TouchedWallets(s, tx)
  {
    forall w | w in TouchedWallets(s, tx) ensures w in locked.Values {
      var a := s.wallets[w];
      assert a in locked.Keys && s.wallets[locked[a]] == a;
    }
  }

  /** A transaction that is not in the log has no idempotency row: the key insert of a post whose earlier
      inserts succeeded can fail on the key itself only. */
  lemma KeyIsNew(s: Store, tx: Transaction, key: string)
    requires LedgerInv(s) && Insertable(s, tx, key)
    ensures forall k :: k in s.keys ==> s.keys[k].transactionId != tx.id
    ensures TransactionIn(TransactionTable(s.log + [tx]), tx.id)
  {
    assert TransactionTable(s.log + [tx])[|s.log|].id == tx.id;
  }
}
