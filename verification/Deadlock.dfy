/** Waiting never becomes circular: some worker can always execute its next statement. */
module Deadlock {
  import opened Prelude
  import opened Transactions
  import opened Ledger
  import opened Balances
  import opened Workers
  import opened Interference
  import opened Safety
  import opened Interleaving

  predicate Unfinished(w: Worker) {
    !w.pc.Finished?
  }

  ghost predicate CanStep(sys: System, i: nat) {
    i < |sys.workers| && exists pick :: AdvanceWorker(sys, i, pick) != sys
  }

  predicate SharesRowIds(tx: Transaction, other: Transaction) {
    || tx.entry.id == other.entry.id
    || exists p, q :: p in tx.entry.postings && q in other.entry.postings && p.id == q.id
  }

  /** Row ids are minted per request: two transactions that share an entry or a posting id are the same one. */
  predicate IdsPerRequest(sys: System) {
    forall i, j :: 0 <= i < |sys.workers| && 0 <= j < |sys.workers| &&
                   PostLike(sys.workers[i].op) && PostLike(sys.workers[j].op) &&
                   SharesRowIds(sys.workers[i].op.tx, sys.workers[j].op.tx) ==>
      sys.workers[i].op.tx.id == sys.workers[j].op.tx.id
  }

  /** No capture touches a wallet account below its hold's own, which it locks first. */
  predicate SettlesUpward(sys: System) {
    forall i :: 0 <= i < |sys.workers| && sys.workers[i].op.Capture? ==>
      match OwnAccount(sys.store, sys.workers[i].op)
      case None => true
      case Some(own) => forall a :: a in Guarded(sys.store, sys.workers[i].op) ==> own <= a
  }

  // ---------------------------------------------------------------- rank of the wait-for graph

  /** How far a worker is in acquiring what it needs. Waiting always points to a higher rank. */
  function Phase(s: Store, w: Worker): nat {
    match w.pc
    case Updating => 0
    case LockOwn => 1
    case Locking(rest) => if NeedsRow(s, w, rest) then 1 else 3
    case LockHold => 2
    case Writing(n) => if n >= |Statements(w.op, w.posting)| then 6 else if n == 0 then 4 else 5
    case _ => 3
  }

  /** The next account has a wallet whose row is not locked yet. */
  predicate NeedsRow(s: Store, w: Worker, rest: seq<Id>) {
    rest != [] && rest[0] in s.wallets.Values && WalletRow(rest[0]) !in w.held
  }

  /** Within the wallet-locking phase, the account key waited for. */
  function LockKey(s: Store, w: Worker): nat {
    match w.pc
    case LockOwn => (match OwnAccount(s, w.op) case None => 0 case Some(a) => a)
    case Locking(rest) => if rest != [] then rest[0] else 0
    case _ => 0
  }

  predicate Below(s: Store, w: Worker, w': Worker) {
    Phase(s, w) < Phase(s, w') || (Phase(s, w) == Phase(s, w') && LockKey(s, w) < LockKey(s, w'))
  }

  lemma {:induction false} Highest(s: Store, workers: seq<Worker>, n: nat) returns (m: nat)
    requires n <= |workers| && exists i :: 0 <= i < n && Unfinished(workers[i])
    ensures m < n && Unfinished(workers[m])
    ensures forall j :: 0 <= j < n && Unfinished(workers[j]) ==> !Below(s, workers[m], workers[j])
  {
    hide Phase, LockKey;
    if exists i :: 0 <= i < n - 1 && Unfinished(workers[i]) {
      m := Highest(s, workers, n - 1);
      if Unfinished(workers[n - 1]) && Below(s, workers[m], workers[n - 1]) {
        m := n - 1;
      }
    } else {
      m := n - 1;
    }
  }

  // ---------------------------------------------------------------- who waits for whom

  lemma HolderOf(sys: System, i: nat, us: set<Resource>) returns (j: nat, u: Resource)
    requires Blocked(sys, i, us)
    ensures j < |sys.workers| && j != i && u in us && u in sys.workers[j].held
  {
    u :| u in us && HeldByOther(sys, i, u);
    j :| 0 <= j < |sys.workers| && j != i && u in sys.workers[j].held;
  }

  lemma HoldersAreUnfinished(sys: System, j: nat)
    requires SystemInv(sys) && j < |sys.workers| && sys.workers[j].held != {}
    ensures Unfinished(sys.workers[j]) && !sys.workers[j].pc.Updating? && !sys.workers[j].pc.LockOwn?
  {
    hide SystemInv, HoldsOnly, Unoccupied, WellFormed;
    WorkerAt(sys, j);
  }

  /** Whoever holds the wallet row of account a is past it in the lock order: even a capture, whose own row is
      the lowest it needs. */
  lemma WalletHolderAhead(sys: System, j: nat, a: Id)
    requires SystemInv(sys) && SettlesUpward(sys) && j < |sys.workers| && WalletRow(a) in sys.workers[j].held
    ensures Unfinished(sys.workers[j])
    ensures Phase(sys.store, sys.workers[j]) > 1 ||
            (Phase(sys.store, sys.workers[j]) == 1 && LockKey(sys.store, sys.workers[j]) > a)
  {
    hide SystemInv, HoldsOnly, Unoccupied, WellFormed, Ready, LocksWallets, Inserted, OwnAccount, Statements;
    HoldersAreUnfinished(sys, j);
    WorkerAt(sys, j);
    var w := sys.workers[j];
    if w.pc.Locking? && NeedsRow(sys.store, w, w.pc.rest) {
      assert w.pc.rest[0] in w.pc.rest;
      assert w.pc.rest[0] in Guarded(sys.store, w.op);
      if OwnAccount(sys.store, w.op) == Some(a) { OnlyTwoOwn(sys.store, w.op); }
    }
  }

  lemma OnlyTwoOwn(s: Store, op: Op)
    requires PostLike(op) && OwnAccount(s, op).Some?
    ensures op.Capture?
  {
    hide FindHold;
  }

  /** A worker waiting for a wallet row waits for one of higher rank. */
  lemma WalletWait(sys: System, i: nat, a: Id) returns (j: nat)
    requires SystemInv(sys) && SettlesUpward(sys) && i < |sys.workers| && Blocked(sys, i, {WalletRow(a)})
    requires Phase(sys.store, sys.workers[i]) == 1 && LockKey(sys.store, sys.workers[i]) == a
    ensures j < |sys.workers| && Unfinished(sys.workers[j]) && Below(sys.store, sys.workers[i], sys.workers[j])
  {
    hide SystemInv, SettlesUpward, Phase, LockKey;
    var u;
    j, u := HolderOf(sys, i, {WalletRow(a)});
    WalletHolderAhead(sys, j, a);
  }

  /** The row of a hold is only ever locked by a capture that also has the hold's wallet row. */
  lemma HoldHolder(sys: System, j: nat, id: Id)
    requires SystemInv(sys) && j < |sys.workers| && HoldRow(id) in sys.workers[j].held
    ensures sys.workers[j].op.Capture? && sys.workers[j].op.holdId == id && OwnLocked(sys.store, sys.workers[j])
  {
    hide SystemInv, KnowsAt, Unoccupied, WellFormed, OwnLocked, Statements;
    WorkerAt(sys, j);
  }

  /** So two captures never meet at the hold row: the wallet row already separated them. */
  lemma HoldRowFree(sys: System, i: nat)
    requires SystemInv(sys) && i < |sys.workers| && sys.workers[i].pc == LockHold
    ensures sys.workers[i].op.Capture? && !Blocked(sys, i, {HoldRow(sys.workers[i].op.holdId)})
  {
    hide SystemInv, HoldsOnly, Unoccupied, WellFormed, FindHold;
    WorkerAt(sys, i);
    var id := sys.workers[i].op.holdId;
    assert WalletRow(OwnAccount(sys.store, sys.workers[i].op).value) in sys.workers[i].held;
    OthersDisjoint(sys, i);
    if Blocked(sys, i, {HoldRow(id)}) {
      var j, u := HolderOf(sys, i, {HoldRow(id)});
      HoldHolder(sys, j, id);
      assert false;
    }
  }

  lemma UpdateWait(sys: System, i: nat, id: Id) returns (j: nat)
    requires SystemInv(sys) && i < |sys.workers| && sys.workers[i].pc == Updating && Blocked(sys, i, {HoldRow(id)})
    ensures j < |sys.workers| && Unfinished(sys.workers[j]) && Below(sys.store, sys.workers[i], sys.workers[j])
  {
    hide SystemInv, LockKey;
    var u;
    j, u := HolderOf(sys, i, {HoldRow(id)});
    HoldersAreUnfinished(sys, j);
  }

  lemma RowKind(op: Op, posting: bool, k: nat, u: Resource)
    requires k < |Statements(op, posting)| && u in Statements(op, posting)[k]
    ensures k > 0 ==> PostLike(op)
    ensures u.EntryPk? ==> PostLike(op) && u.id == op.tx.entry.id && k == 1
    ensures u.PostingPk? ==> PostLike(op) && exists p :: p in op.tx.entry.postings && p.id == u.id
    ensures u.KeyPk? ==> PostLike(op) && k == |Statements(op, posting)| - 1
    ensures k > 0 ==> u.EntryPk? || u.PostingPk? || u.KeyPk?
    ensures PostLike(op) ==> TransactionPk(op.tx.id) in Statements(op, posting)[0]
  {
    hide RowsOf, PostingRows;
    if PostLike(op) {
      var rows := RowsOf(op.tx, op.key);
      assert Statements(op, posting) == rows;
      RowInserted(op.tx, op.key, k);
      RowInserted(op.tx, op.key, 0);
      if k == 0 {
        assert u.TransactionPk? || u.ReversalOf?;
      } else if 2 <= k < 2 + |op.tx.entry.postings| {
        assert op.tx.entry.postings[k - 2] in op.tx.entry.postings;
        assert u == PostingPk(op.tx.entry.postings[k - 2].id);
      } else if k == |rows| - 2 {
        assert false;
      } else if k == |rows| - 1 {
        assert u == KeyPk(op.key);
      } else {
        assert u == EntryPk(op.tx.entry.id);
      }
    }
  }

  lemma RowHolder(sys: System, j: nat, u: Resource) returns (k: nat)
    requires SystemInv(sys) && j < |sys.workers| && u in sys.workers[j].held && !u.WalletRow? && !u.HoldRow?
    ensures sys.workers[j].pc.Writing?
    ensures k < sys.workers[j].pc.n <= |Statements(sys.workers[j].op, sys.workers[j].posting)|
    ensures u in Statements(sys.workers[j].op, sys.workers[j].posting)[k]
    ensures forall m :: 0 <= m < sys.workers[j].pc.n ==>
              Statements(sys.workers[j].op, sys.workers[j].posting)[m] <= sys.workers[j].held
  {
    hide SystemInv, Unoccupied, WellFormed, Statements, Ready, LocksWallets, Replaying, RowAllowed, OwnLocked;
    WorkerAt(sys, j);
    var w := sys.workers[j];
    assert InsertedBefore(Statements(w.op, w.posting), InsertsDone(w), u);
    k :| 0 <= k < InsertsDone(w) && k < |Statements(w.op, w.posting)| && u in Statements(w.op, w.posting)[k];
  }

  lemma WriterHolds(sys: System, i: nat, n: nat)
    requires SystemInv(sys) && i < |sys.workers| && sys.workers[i].pc == Writing(n) && n > 0
    requires n <= |Statements(sys.workers[i].op, sys.workers[i].posting)|
    ensures Statements(sys.workers[i].op, sys.workers[i].posting)[0] <= sys.workers[i].held
  {
    hide SystemInv, HoldsOnly, Unoccupied, WellFormed, Statements, Ready, LocksWallets, Replaying, RowAllowed;
    WorkerAt(sys, i);
  }

  /** A worker waiting on a pending duplicate waits for one that is further along. */
  lemma InsertWait(sys: System, i: nat, n: nat) returns (j: nat)
    requires SystemInv(sys) && IdsPerRequest(sys) && i < |sys.workers| && sys.workers[i].pc == Writing(n)
    requires n < |Statements(sys.workers[i].op, sys.workers[i].posting)|
    requires Blocked(sys, i, Statements(sys.workers[i].op, sys.workers[i].posting)[n])
    ensures j < |sys.workers| && Unfinished(sys.workers[j]) && Below(sys.store, sys.workers[i], sys.workers[j])
  {
    hide SystemInv, Statements, SharesRowIds;
    var w := sys.workers[i];
    var rows := Statements(w.op, w.posting);
    var u;
    j, u := HolderOf(sys, i, rows[n]);
    StatementsOccupyIndexes(w.op, w.posting, n, u);
    var k := RowHolder(sys, j, u);
    var w' := sys.workers[j];
    RowKind(w.op, w.posting, n, u);
    RowKind(w'.op, w'.posting, k, u);
    OthersDisjoint(sys, i);
    if n > 0 { WriterHolds(sys, i, n); }
    assert Statements(w'.op, w'.posting)[0] <= w'.held;
    if n > 0 && !u.KeyPk? {
      SameRows(w.op.tx, w'.op.tx, u);
      assert false;
    }
  }

  lemma SameRows(tx: Transaction, other: Transaction, u: Resource)
    requires (u.EntryPk? && u.id == tx.entry.id == other.entry.id) ||
             (u.PostingPk? && (exists p :: p in tx.entry.postings && p.id == u.id) &&
              exists q :: q in other.entry.postings && q.id == u.id)
    ensures SharesRowIds(tx, other)
  {
  }

  // ---------------------------------------------------------------- progress

  lemma StepsBy(sys: System, i: nat, pick: Id)
    requires i < |sys.workers| && AdvanceWorker(sys, i, pick) != sys
    ensures CanStep(sys, i)
  {
    hide AdvanceWorker;
  }

  /** Reading statements never wait. */
  lemma ReadersStep(sys: System, i: nat)
    requires SystemInv(sys) && i < |sys.workers|
    requires sys.workers[i].pc.Start? || sys.workers[i].pc.Recheck? || sys.workers[i].pc.Validating? ||
             sys.workers[i].pc.Reread?
    ensures CanStep(sys, i)
  {
    hide SystemInv, HoldsOnly, Unoccupied, WellFormed, Ready, LocksWallets, HoldIndex, HoldKeyIndex, CheckKey,
         SortedAccounts, Accepts64, Projected, Guarded, CanStep;
    WorkerAt(sys, i);
    var pick: Id := if sys.workers[i].pc.Validating? && sys.workers[i].pc.todo != {} then
      (var a :| a in sys.workers[i].pc.todo; a) else 0;
    var after := AdvanceWorker(sys, i, pick);
    assert after.workers[i].pc != sys.workers[i].pc;
    StepsBy(sys, i, pick);
  }

  lemma LockersStepOrWait(sys: System, i: nat) returns (j: nat)
    requires SystemInv(sys) && SettlesUpward(sys) && i < |sys.workers|
    requires sys.workers[i].pc.LockOwn? || sys.workers[i].pc.LockHold? || sys.workers[i].pc.Locking?
    ensures CanStep(sys, i) ||
            (j < |sys.workers| && Unfinished(sys.workers[j]) && Below(sys.store, sys.workers[i], sys.workers[j]))
  {
    hide SystemInv, HoldsOnly, Unoccupied, WellFormed, LocksWallets, HoldIndex, CheckKey, SortedAccounts, Guarded,
         CanStep, Below, Blocked, OwnAccount, FindHold, SettlesUpward, LockOrder;
    WorkerAt(sys, i);
    var w := sys.workers[i];
    j := 0;
    match w.pc {
      case LockOwn =>
        var a := OwnAccount(sys.store, w.op).value;
        if Blocked(sys, i, {WalletRow(a)}) {
          j := WalletWait(sys, i, a);
        } else {
          assert AdvanceWorker(sys, i, 0).workers[i].pc != w.pc;
          StepsBy(sys, i, 0);
        }
      case LockHold =>
        HoldRowFree(sys, i);
        assert AdvanceWorker(sys, i, 0).workers[i].pc != w.pc;
        StepsBy(sys, i, 0);
      case Locking(rest) =>
        if rest != [] && rest[0] in sys.store.wallets.Values && Blocked(sys, i, {WalletRow(rest[0])}) {
          OtherHolds(sys, i, rest[0]);
          j := WalletWait(sys, i, rest[0]);
        } else {
          assert |rest| > 0 ==> |rest[1..]| < |rest|;
          assert AdvanceWorker(sys, i, 0).workers[i].pc != w.pc;
          StepsBy(sys, i, 0);
        }
    }
  }

  lemma OtherHolds(sys: System, i: nat, a: Id)
    requires SystemInv(sys) && i < |sys.workers| && Blocked(sys, i, {WalletRow(a)})
    ensures WalletRow(a) !in sys.workers[i].held
  {
    hide SystemInv;
    var j, u := HolderOf(sys, i, {WalletRow(a)});
    OthersDisjoint(sys, i);
  }

  lemma WritersStepOrWait(sys: System, i: nat) returns (j: nat)
    requires SystemInv(sys) && IdsPerRequest(sys) && i < |sys.workers|
    requires sys.workers[i].pc.Writing? || sys.workers[i].pc.Updating?
    ensures CanStep(sys, i) ||
            (j < |sys.workers| && Unfinished(sys.workers[j]) && Below(sys.store, sys.workers[i], sys.workers[j]))
  {
    hide SystemInv, HoldsOnly, Unoccupied, WellFormed, LocksWallets, Ready, Inserted, Replaying, HoldIndex, CanStep,
         Below, Blocked, FindHold, Statements, Taken, RowAllowed, CommitEffect, IdsPerRequest;
    WorkerAt(sys, i);
    var w := sys.workers[i];
    j := 0;
    match w.pc {
      case Writing(n) =>
        if n < |Statements(w.op, w.posting)| && Blocked(sys, i, Statements(w.op, w.posting)[n]) {
          j := InsertWait(sys, i, n);
        } else {
          assert AdvanceWorker(sys, i, 0).workers[i].pc != w.pc;
          StepsBy(sys, i, 0);
        }
      case Updating =>
        if Blocked(sys, i, {HoldRow(HoldOf(w.op))}) {
          j := UpdateWait(sys, i, HoldOf(w.op));
        } else {
          assert AdvanceWorker(sys, i, 0).workers[i].pc != w.pc;
          StepsBy(sys, i, 0);
        }
    }
  }

  /** No deadlock: in every state the invariant describes, unless all workers have finished, some worker's
      next statement goes through. Row ids are minted per request and no capture touches a wallet account
      below its hold's own; idempotency keys, transaction ids and reversals may collide freely. */
  lemma {:induction false} SomebodyCanStep(sys: System) returns (i: nat)
    requires SystemInv(sys) && IdsPerRequest(sys) && SettlesUpward(sys)
    requires exists i :: 0 <= i < |sys.workers| && Unfinished(sys.workers[i])
    ensures CanStep(sys, i)
  {
    hide SystemInv, IdsPerRequest, SettlesUpward, CanStep, Below;
    i := Highest(sys.store, sys.workers, |sys.workers|);
    var j: nat;
    match sys.workers[i].pc {
      case LockOwn => j := LockersStepOrWait(sys, i);
      case LockHold => j := LockersStepOrWait(sys, i);
      case Locking(_) => j := LockersStepOrWait(sys, i);
      case Writing(_) => j := WritersStepOrWait(sys, i);
      case Updating => j := WritersStepOrWait(sys, i);
      case _ => ReadersStep(sys, i);
    }
  }
}
