/** What a worker may rely on while others commit, and what its own commit guarantees to them. */
module Interference {
  import opened Prelude
  import opened Journal
  import opened Transactions
  import opened Ledger
  import opened Balances
  import opened Workers

  // ---------------------------------------------------------------- hold lookups

  lemma HoldIndexIs(holds: seq<Hold>, id: Id, i: nat)
    requires i <= |holds| && (i < |holds| ==> holds[i].id == id)
    requires forall k :: 0 <= k < i ==> holds[k].id != id
    ensures HoldIndex(holds, id) == i
  {
    hide HoldIndex;
    var j := HoldIndex(holds, id);
  }

  lemma HoldKeyIndexIs(holds: seq<Hold>, wallet: Id, key: string, i: nat)
    requires i <= |holds| && (i < |holds| ==> holds[i].wallet == wallet && holds[i].key == key)
    requires forall k :: 0 <= k < i ==> !(holds[k].wallet == wallet && holds[k].key == key)
    ensures HoldKeyIndex(holds, wallet, key) == i
  {
    hide HoldKeyIndex;
    var j := HoldKeyIndex(holds, wallet, key);
  }

  lemma FindAfterAppend(s: Store, h: Hold, id: Id)
    ensures FindHold(s.(holds := s.holds + [h]), id) ==
            if FindHold(s, id).Some? then FindHold(s, id) else if h.id == id then Some(h) else None
  {
    hide HoldIndex;
    var i := HoldIndex(s.holds, id);
    if i < |s.holds| || h.id == id {
      HoldIndexIs(s.holds + [h], id, i);
    } else {
      HoldIndexIs(s.holds + [h], id, |s.holds| + 1);
    }
  }

  lemma FindByKeyAfterAppend(s: Store, h: Hold, wallet: Id, key: string)
    ensures FindHoldByKey(s.(holds := s.holds + [h]), wallet, key) ==
            if FindHoldByKey(s, wallet, key).Some? then FindHoldByKey(s, wallet, key)
            else if h.wallet == wallet && h.key == key then Some(h) else None
  {
    hide HoldKeyIndex;
    var i := HoldKeyIndex(s.holds, wallet, key);
    if i < |s.holds| || (h.wallet == wallet && h.key == key) {
      HoldKeyIndexIs(s.holds + [h], wallet, key, i);
    } else {
      HoldKeyIndexIs(s.holds + [h], wallet, key, |s.holds| + 1);
    }
  }

  /** The guarded update changes the status of one authorized hold and nothing else about any hold. */
  lemma StatusKeepsTables(s: Store, id: Id, status: HoldStatus)
    ensures SetStatus(s, id, status).keys == s.keys && SetStatus(s, id, status).wallets == s.wallets
  {
  }

  lemma FindAfterStatus(s: Store, target: Id, status: HoldStatus, id: Id)
    ensures FindHold(SetStatus(s, target, status), id) ==
            if FindHold(s, id).Some? && id == target && FindHold(s, id).value.status == Authorized
            then Some(FindHold(s, id).value.(status := status)) else FindHold(s, id)
  {
    hide HoldIndex;
    var s' := SetStatus(s, target, status);
    HoldIndexIs(s'.holds, id, HoldIndex(s.holds, id));
  }

  lemma FindByKeyAfterStatus(s: Store, target: Id, status: HoldStatus, wallet: Id, key: string)
    ensures FindHoldByKey(SetStatus(s, target, status), wallet, key).Some? <==> FindHoldByKey(s, wallet, key).Some?
    ensures FindHoldByKey(s, wallet, key).Some? ==>
              var h := FindHoldByKey(s, wallet, key).value;
              var h' := FindHoldByKey(SetStatus(s, target, status), wallet, key).value;
              h'.(status := h.status) == h && (h.status != Authorized ==> h' == h)
  {
    hide HoldIndex, HoldKeyIndex;
    var s' := SetStatus(s, target, status);
    HoldKeyIndexIs(s'.holds, wallet, key, HoldKeyIndex(s.holds, wallet, key));
  }

  // ---------------------------------------------------------------- rely

  predicate SameHold(h: Hold, h': Hold) {
    h'.(status := h.status) == h
  }

  /** No index entry among us is occupied by a committed row. */
  predicate Unoccupied(s: Store, us: set<Resource>) {
    forall u :: u in us ==> !Taken(s, u)
  }

  ghost predicate RowsOfWallets(s: Store, us: set<Resource>) {
    forall a :: WalletRow(a) in us ==> a in s.wallets.Values
  }

  /** The database moved from s to s' while somebody held us: reference data, keys, transactions and holds
      persist, a locked hold did not change, and a locked wallet's booked balance did not change and its available
      balance did not fall. */
  ghost predicate Evolves(s: Store, s': Store, us: set<Resource>) {
    && s'.accounts == s.accounts && s'.wallets == s.wallets
    && (forall key :: key in s.keys ==> key in s'.keys && s'.keys[key] == s.keys[key])
    && (forall id :: HasTransaction(s, id) ==> HasTransaction(s', id))
    && (forall id :: FindHold(s, id).Some? ==>
          FindHold(s', id).Some? && SameHold(FindHold(s, id).value, FindHold(s', id).value))
    && (forall id :: HoldRow(id) in us && FindHold(s, id).Some? ==> FindHold(s', id) == FindHold(s, id))
    && (forall a, t :: WalletRow(a) in us ==> Available(s', a, t) >= Available(s, a, t))
    && (forall a: Id :: WalletRow(a) in us ==> LedgerBalance(s', a) == LedgerBalance(s, a))
    && (forall u :: u in us && !Taken(s, u) ==> !Taken(s', u))
  }

  lemma EvolvesTransitive(s0: Store, s1: Store, s2: Store, us: set<Resource>)
    requires Evolves(s0, s1, us) && Evolves(s1, s2, us)
    ensures Evolves(s0, s2, us)
  {
    hide FindHold, HasTransaction, Available, Taken;
    forall a, t | WalletRow(a) in us ensures Available(s2, a, t) >= Available(s0, a, t) {
      assert Available(s1, a, t) >= Available(s0, a, t);
    }
  }

  // ---------------------------------------------------------------- guarantee of an insert

  lemma RowInserted(tx: Transaction, key: string, n: nat)
    requires n < |RowsOf(tx, key)|
    ensures n == 0 ==> TransactionPk(tx.id) in RowsOf(tx, key)[n]
    ensures n == 0 && tx.reverses.Some? ==> ReversalOf(tx.reverses.value) in RowsOf(tx, key)[n]
    ensures n == 0 ==> forall u :: u in RowsOf(tx, key)[n] ==> u.TransactionPk? || u.ReversalOf?
    ensures n == 1 ==> RowsOf(tx, key)[n] == {EntryPk(tx.entry.id)}
    ensures 2 <= n < 2 + |tx.entry.postings| ==> RowsOf(tx, key)[n] == {PostingPk(tx.entry.postings[n - 2].id)}
    ensures n == |RowsOf(tx, key)| - 2 ==> RowsOf(tx, key)[n] == {}
    ensures n == |RowsOf(tx, key)| - 1 ==> RowsOf(tx, key)[n] == {KeyPk(key)}
    ensures |RowsOf(tx, key)| == |tx.entry.postings| + 4
  {
  }

  lemma StatementsOccupyIndexes(op: Op, posting: bool, n: nat, u: Resource)
    requires n < |Statements(op, posting)| && u in Statements(op, posting)[n]
    ensures !u.WalletRow? && !u.HoldRow?
  {
    if PostLike(op) && posting {
      RowInserted(op.tx, op.key, n);
    }
  }

  /** u is an index entry of one of these insert statements. */
  predicate Occupies(rows: seq<set<Resource>>, u: Resource) {
    exists n :: 0 <= n < |rows| && u in rows[n]
  }

  /** An insert occupies exactly the index entries of its own rows. */
  lemma TakenAfterInsert(s: Store, tx: Transaction, key: string, hash: string, u: Resource)
    requires Taken(Insert(s, tx, key, hash), u) && !Taken(s, u)
    ensures Occupies(RowsOf(tx, key), u)
  {
    hide TouchedWallets, HoldIndex, HoldKeyIndex;
    var s' := Insert(s, tx, key, hash);
    var rows := RowsOf(tx, key);
    match u {
      case TransactionPk(id) =>
        assert s'.log[|s.log|].id == id;
        assert u in rows[0];
      case ReversalOf(id) =>
        assert s'.log[|s.log|].reverses == Some(id);
        assert u in rows[0];
      case EntryPk(id) =>
        assert s'.log[|s.log|].entry.id == id;
        assert u in rows[1];
      case PostingPk(id) =>
        var i, k :| 0 <= i < |s'.log| && 0 <= k < |s'.log[i].entry.postings| && s'.log[i].entry.postings[k].id == id;
        if i < |s.log| {
          assert false;
        }
        RowInserted(tx, key, k + 2);
        assert u in rows[k + 2];
      case KeyPk(k) =>
        RowInserted(tx, key, |rows| - 1);
        assert u in rows[|rows| - 1];
      case _ =>
    }
  }

  /** Committing an insert disturbs nobody who holds none of its wallet rows or index entries. */
  lemma InsertEvolves(s: Store, tx: Transaction, key: string, hash: string, us: set<Resource>)
    requires RowsOfWallets(s, us) && key !in s.keys
    requires forall u :: u in us ==> !Occupies(RowsOf(tx, key), u)
    requires forall a :: a in Accounts(tx.entry.postings) && a in s.wallets.Values ==> WalletRow(a) !in us
    ensures Evolves(s, Insert(s, tx, key, hash), us)
  {
    hide TouchedWallets, Available, Taken, Occupies, RowsOf, HoldIndex, Delta;
    var s' := Insert(s, tx, key, hash);
    forall a, t | WalletRow(a) in us ensures Available(s', a, t) >= Available(s, a, t) {
      InsertMoves(s, tx, key, hash, a, t);
      DeltaUntouched(tx.entry.postings, a);
    }
    forall a: Id | WalletRow(a) in us ensures LedgerBalance(s', a) == LedgerBalance(s, a) {
      InsertMoves(s, tx, key, hash, a, 0);
      DeltaUntouched(tx.entry.postings, a);
    }
    forall u | u in us && !Taken(s, u) ensures !Taken(s', u) {
      if Taken(s', u) { TakenAfterInsert(s, tx, key, hash, u); }
    }
    forall id | HasTransaction(s, id) ensures HasTransaction(s', id) {
      var i :| 0 <= i < |s.log| && s.log[i].id == id;
      assert s'.log[i].id == id;
    }
  }

  /** Committing a new hold disturbs nobody who holds neither its wallet row nor its index entries. */
  lemma HoldEvolves(s: Store, h: Hold, us: set<Resource>)
    requires HoldPk(h.id) !in us && HoldKey(h.wallet, h.key) !in us
    requires h.wallet in s.wallets ==> WalletRow(s.wallets[h.wallet]) !in us
    ensures Evolves(s, s.(holds := s.holds + [h]), us)
  {
    hide Available, FindHold, FindHoldByKey, HasTransaction, HasEntry, HasPosting, HasReversalOf;
    var s' := s.(holds := s.holds + [h]);
    assert forall id :: HasTransaction(s', id) == HasTransaction(s, id) by { SameLog(s, s'); }
    forall id ensures FindHold(s, id).Some? ==> FindHold(s', id) == FindHold(s, id) {
      FindAfterAppend(s, h, id);
    }
    forall a, t | WalletRow(a) in us ensures Available(s', a, t) >= Available(s, a, t) {
      HoldMoves(s, h, a, t);
    }
    forall u | u in us && !Taken(s, u) ensures !Taken(s', u) {
      SameLog(s, s');
      match u {
        case HoldPk(id) => FindAfterAppend(s, h, id);
        case HoldKey(wallet, key) => FindByKeyAfterAppend(s, h, wallet, key);
        case _ =>
      }
    }
  }

  lemma SameLog(s: Store, s': Store)
    requires s'.log == s.log
    ensures forall id :: HasTransaction(s', id) == HasTransaction(s, id)
    ensures forall id :: HasReversalOf(s', id) == HasReversalOf(s, id)
    ensures forall id :: HasEntry(s', id) == HasEntry(s, id)
    ensures forall id :: HasPosting(s', id) == HasPosting(s, id)
  {
  }

  /** Ending a hold disturbs nobody who has not locked its row; it can only raise an available balance. */
  lemma StatusEvolves(s: Store, id: Id, status: HoldStatus, us: set<Resource>)
    requires HoldRow(id) !in us && status != Authorized && ConstructedHolds(s.holds) && FindHold(s, id).Some?
    ensures Evolves(s, SetStatus(s, id, status), us)
  {
    hide Available, FindHold, FindHoldByKey, HasTransaction, HasEntry, HasPosting, HasReversalOf, HoldIndex;
    var s' := SetStatus(s, id, status);
    assert s' == s.(holds := s'.holds);
    SameLog(s, s');
    forall other ensures FindHold(s, other).Some? ==>
        FindHold(s', other).Some? && SameHold(FindHold(s, other).value, FindHold(s', other).value)
      ensures other != id ==> FindHold(s', other) == FindHold(s, other)
    {
      FindAfterStatus(s, id, status, other);
    }
    forall a, t | WalletRow(a) in us ensures Available(s', a, t) >= Available(s, a, t) {
      StatusKeeps(s, id, status, a, t);
    }
    forall u | u in us && !Taken(s, u) ensures !Taken(s', u) {
      match u {
        case HoldPk(h) => FindAfterStatus(s, id, status, h);
        case HoldKey(wallet, key) => FindByKeyAfterStatus(s, id, status, wallet, key);
        case _ =>
      }
    }
  }
}
