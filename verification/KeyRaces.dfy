/** The branch of Post behind a failed key insert: it rolls back and reads the key again. In every interleaving
    what it finds is a conflict, so the branch that reports a replay there is never taken. */
module KeyRaces {
  import opened Prelude
  import opened Ledger
  import opened Workers
  import opened Interference
  import opened Safety
  import opened Interleaving
  import opened Bookkeeping
  import opened Histories

  /** The post's key belongs to another transaction. */
  predicate KeyLost(s: Store, op: Op) {
    op.Post? && op.key in s.keys && s.keys[op.key].transactionId != op.tx.id
  }

  predicate RereadsHaveLost(sys: System) {
    forall i :: 0 <= i < |sys.workers| && sys.workers[i].pc == Reread ==> KeyLost(sys.store, sys.workers[i].op)
  }

  lemma OwnRowsBeforeKey(s: Store, w: Worker, n: nat)
    requires w.op.Post? && w.posting && HoldsOnly(s, w) && w.pc == Writing(n)
    requires n == |Statements(w.op, w.posting)| - 1
    ensures n > 0 && KeyPk(w.op.key) !in w.held
    ensures Statements(w.op, w.posting)[n] == {KeyPk(w.op.key)} && RowAllowed(s, w.op, n)
  {
    hide OwnLocked;
    var rows := RowsOf(w.op.tx, w.op.key);
    RowInserted(w.op.tx, w.op.key, n);
    if KeyPk(w.op.key) in w.held {
      var k :| 0 <= k < n && k < |rows| && KeyPk(w.op.key) in rows[k];
      RowInserted(w.op.tx, w.op.key, k);
    }
  }

  /** A step from the inserts to the second read is a failed key insert of a post. */
  lemma FailsAtKey(sys: System, i: nat, n: nat)
    requires i < |sys.workers|
    requires var sys' := AtWriting(sys, i, n); i < |sys'.workers| && sys'.workers[i].pc == Reread
    requires sys.workers[i].pc == Writing(n)
    ensures var w := sys.workers[i];
            var rows := Statements(w.op, w.posting);
            && w.op.Post? && n == |rows| - 1
            && ((exists u :: u in rows[n] && (Taken(sys.store, u) || u in w.held))
                || !RowAllowed(sys.store, w.op, n))
  {
    hide Statements, Taken, RowAllowed, Blocked, CommitEffect;
  }

  /** The key insert can only fail on a committed row of the same key, and since the post's own transaction id
      is not in the ledger, that row is of another transaction. */
  lemma FailedKeyInsert(sys: System, i: nat, n: nat)
    requires SystemInv(sys) && LedgerInv(sys.store) && i < |sys.workers| && sys.workers[i].pc == Writing(n)
    requires var sys' := AtWriting(sys, i, n); i < |sys'.workers| && sys'.workers[i].pc == Reread
    ensures KeyLost(sys.store, sys.workers[i].op)
  {
    hide SystemInv, LedgerInv, AtWriting, LocksWallets, OwnLocked, HoldsOnly, RowAllowed, Statements;
    WorkerAt(sys, i);
    var w, s := sys.workers[i], sys.store;
    FailsAtKey(sys, i, n);
    OwnRowsBeforeKey(s, w, n);
    assert Taken(s, KeyPk(w.op.key));
    FirstRowHeld(s, w, n);
    assert !Taken(s, TransactionPk(w.op.tx.id));
    KeysAreLogged(s, w.op.key);
  }

  lemma FirstRowHeld(s: Store, w: Worker, n: nat)
    requires w.op.Post? && w.posting && Inserted(s, w, n) && n > 0
    ensures TransactionPk(w.op.tx.id) in w.held
  {
    hide RowAllowed;
    RowInserted(w.op.tx, w.op.key, 0);
    assert Statements(w.op, w.posting)[0] <= w.held;
  }

  lemma KeysAreLogged(s: Store, key: string)
    requires LedgerInv(s) && key in s.keys
    ensures HasTransaction(s, s.keys[key].transactionId)
  {
    hide OutboxComplete, DistinctHolds;
    assert Logged(s.log, s.keys[key].transactionId);
  }

  /** Only worker i has moved, to another statement of the same operation. */
  predicate OnlyMoves(sys: System, sys': System, i: nat)
    requires i < |sys.workers|
  {
    && |sys'.workers| == |sys.workers| && sys'.workers[i].op == sys.workers[i].op
    && forall j :: 0 <= j < |sys.workers| && j != i ==> sys'.workers[j] == sys.workers[j]
  }

  predicate NoReread(sys: System, i: nat)
    requires i < |sys.workers|
  {
    sys.workers[i].pc != Reread
  }

  lemma FirstStatementsStay(sys: System, i: nat)
    requires i < |sys.workers| && NoReread(sys, i)
    ensures OnlyMoves(sys, AtStart(sys, i), i) && NoReread(AtStart(sys, i), i)
    ensures OnlyMoves(sys, AtLockOwn(sys, i), i) && NoReread(AtLockOwn(sys, i), i)
  {
    hide FindHold, SortedAccounts, Blocked, CheckKey, OwnAccount;
  }

  lemma HoldStatementsStay(sys: System, i: nat)
    requires i < |sys.workers| && NoReread(sys, i)
    ensures OnlyMoves(sys, AtLockHold(sys, i), i) && NoReread(AtLockHold(sys, i), i)
    ensures OnlyMoves(sys, AtUpdating(sys, i), i) && NoReread(AtUpdating(sys, i), i)
  {
    hide FindHold, SortedAccounts, Blocked, CheckKey, CommitEffect;
  }

  lemma LockingStays(sys: System, i: nat, rest: seq<Id>)
    requires i < |sys.workers| && NoReread(sys, i)
    ensures OnlyMoves(sys, AtLocking(sys, i, rest), i) && NoReread(AtLocking(sys, i, rest), i)
  {
    hide Blocked;
  }

  lemma RecheckStays(sys: System, i: nat)
    requires i < |sys.workers| && NoReread(sys, i)
    ensures OnlyMoves(sys, AtRecheck(sys, i), i) && NoReread(AtRecheck(sys, i), i)
  {
    hide FindHoldByKey, Guarded, CheckKey;
  }

  lemma ValidatingStays(sys: System, i: nat, todo: set<Id>, pick: Id)
    requires i < |sys.workers| && NoReread(sys, i)
    ensures OnlyMoves(sys, AtValidating(sys, i, todo, pick), i) && NoReread(AtValidating(sys, i, todo, pick), i)
  {
    hide Accepts64, Projected;
  }

  lemma LastStatementsStay(sys: System, i: nat, n: nat)
    requires i < |sys.workers|
    ensures OnlyMoves(sys, AtWriting(sys, i, n), i)
    ensures OnlyMoves(sys, AtReread(sys, i), i)
    ensures sys.workers[i].op.Post? ==> NoReread(AtReread(sys, i), i)
  {
    hide Blocked, CheckKey, CommitEffect, Statements, Taken, RowAllowed;
  }

  lemma OthersStay(sys: System, i: nat, pick: Id)
    requires i < |sys.workers| && (sys.workers[i].pc == Reread ==> sys.workers[i].op.Post?)
    ensures OnlyMoves(sys, AdvanceWorker(sys, i, pick), i)
    ensures !sys.workers[i].pc.Writing? ==> NoReread(AdvanceWorker(sys, i, pick), i)
  {
    hide AtStart, AtLockOwn, AtLockHold, AtLocking, AtRecheck, AtValidating, AtWriting, AtReread, AtUpdating;
    match sys.workers[i].pc {
      case Start => FirstStatementsStay(sys, i);
      case LockOwn => FirstStatementsStay(sys, i);
      case LockHold => HoldStatementsStay(sys, i);
      case Locking(rest) => LockingStays(sys, i, rest);
      case Recheck => RecheckStays(sys, i);
      case Validating(todo) => ValidatingStays(sys, i, todo, pick);
      case Writing(n) => LastStatementsStay(sys, i, n);
      case Reread => LastStatementsStay(sys, i, 0);
      case Updating => HoldStatementsStay(sys, i);
      case Finished(_) =>
    }
  }

  lemma StepGrows(sys: System, m: Move)
    requires SystemInv(sys)
    ensures Grows(sys.store, Step(sys, m).store)
  {
    hide SystemInv, Step, Grows, OutcomeWith, WellFormed;
    StepIsPassed(sys, m);
    var sys' := Step(sys, m);
    if sys'.store == sys.store {
      GrowsReflexive(sys.store);
    } else {
      var c: Commit :| sys'.history == sys.history + [c] && WellFormed(c.op) &&
        OutcomeWith(sys.store, c.op, c.clock, true) == Outcome(sys'.store, Done);
      OutcomeGrows(sys.store, c.op, c.clock, true);
    }
  }

  lemma LostStaysLost(s: Store, s': Store, op: Op)
    requires Grows(s, s') && KeyLost(s, op)
    ensures KeyLost(s', op)
  {
  }

  lemma RereadsArePosts(sys: System, i: nat)
    requires RereadsHaveLost(sys) && i < |sys.workers|
    ensures sys.workers[i].pc == Reread ==> sys.workers[i].op.Post?
  {
  }

  lemma StepKeepsLost(sys: System, m: Move)
    requires SystemInv(sys) && LedgerInv(sys.store) && RereadsHaveLost(sys)
    ensures RereadsHaveLost(Step(sys, m))
  {
    hide SystemInv, LedgerInv, Grows, KeyLost, AdvanceWorker;
    var sys' := Step(sys, m);
    StepGrows(sys, m);
    forall i | 0 <= i < |sys'.workers| && sys'.workers[i].pc == Reread ensures KeyLost(sys'.store, sys'.workers[i].op) {
      match m {
        case Advance(j, pick) =>
          if j < |sys.workers| {
            RereadsArePosts(sys, j);
            OthersStay(sys, j, pick);
            if i == j && sys.workers[i].pc.Writing? { WritingLoses(sys, i, pick); }
          }
        case Crash(j) =>
        case Tick(elapsed) =>
      }
      LostStaysLost(sys.store, sys'.store, sys'.workers[i].op);
    }
  }

  lemma WritingLoses(sys: System, i: nat, pick: Id)
    requires SystemInv(sys) && LedgerInv(sys.store) && i < |sys.workers| && sys.workers[i].pc.Writing?
    requires var sys' := AdvanceWorker(sys, i, pick); i < |sys'.workers| && sys'.workers[i].pc == Reread
    ensures KeyLost(sys.store, sys.workers[i].op)
  {
    hide SystemInv, LedgerInv, AtWriting, KeyLost;
    FailedKeyInsert(sys, i, sys.workers[i].pc.n);
  }

  lemma {:induction false} RunKeepsLost(sys: System, schedule: seq<Move>)
    requires Initial(sys) && LedgerInv(sys.store)
    ensures RereadsHaveLost(Run(sys, schedule))
  {
    hide LedgerInv, SystemInv, Step, RereadsHaveLost, Initial;
    if schedule == [] {
      NobodyRereadsYet(sys);
    } else {
      var before := schedule[..|schedule| - 1];
      RunKeepsLost(sys, before);
      SoundFromLedger(sys.store);
      RunKeeps(sys, before);
      RunKeepsLedger(sys, before);
      StepKeepsLost(Run(sys, before), schedule[|schedule| - 1]);
    }
  }

  lemma NobodyRereadsYet(sys: System)
    requires Initial(sys)
    ensures RereadsHaveLost(sys)
  {
  }

  /** In every run, a post that reads its key again after a failed key insert ends in an idempotency conflict:
      it can neither find its own request recorded nor find the key free. */
  lemma {:induction false} RereadAlwaysConflicts(sys: System, schedule: seq<Move>, i: nat, pick: Id)
    requires Initial(sys) && LedgerInv(sys.store)
    requires i < |Run(sys, schedule).workers| && Run(sys, schedule).workers[i].pc == Reread
    ensures Step(Run(sys, schedule), Advance(i, pick)).workers[i].pc == Finished(Refused(IdempotencyConflict))
  {
    hide LedgerInv, Initial, Run;
    RunKeepsLost(sys, schedule);
    assert KeyLost(Run(sys, schedule).store, Run(sys, schedule).workers[i].op);
  }
}
