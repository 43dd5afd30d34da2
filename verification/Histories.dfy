/** Facts about whole runs that need no assumption on amounts or timing: the committed history is a serial
    history, and what the ledger has recorded it never forgets or repeats. */
module Histories {
  import opened Prelude
  import opened Journal
  import opened Transactions
  import opened Ledger
  import opened Balances
  import opened Workers
  import opened Interference
  import opened Safety
  import opened Interleaving
  import opened Bookkeeping

  // ---------------------------------------------------------------- serial histories

  /** Committed operations executed one at a time, their balance tests taken as passed. */
  function Passed(s: Store, history: seq<Commit>): Store {
    if history == [] then s
    else
      var last := history[|history| - 1];
      OutcomeWith(Passed(s, history[..|history| - 1]), last.op, last.clock, true).store
  }

  ghost predicate PassedAt(s: Store, history: seq<Commit>, k: nat)
    requires k < |history|
  {
    && WellFormed(history[k].op)
    && OutcomeWith(Passed(s, history[..k]), history[k].op, history[k].clock, true).verdict == Done
  }

  ghost predicate AllPassed(s: Store, history: seq<Commit>) {
    forall k :: 0 <= k < |history| ==> PassedAt(s, history, k)
  }

  lemma PassedNext(s: Store, history: seq<Commit>, k: nat)
    requires k < |history|
    ensures Passed(s, history[..k + 1]) ==
            OutcomeWith(Passed(s, history[..k]), history[k].op, history[k].clock, true).store
  {
    hide OutcomeWith;
    assert history[..k + 1][..k] == history[..k];
  }

  lemma PassedAppend(s: Store, history: seq<Commit>, c: Commit, s': Store)
    requires AllPassed(s, history) && WellFormed(c.op)
    requires OutcomeWith(Passed(s, history), c.op, c.clock, true) == Outcome(s', Done)
    ensures Passed(s, history + [c]) == s' && AllPassed(s, history + [c])
  {
    hide OutcomeWith, WellFormed;
    var longer := history + [c];
    assert longer[..|history|] == history;
    forall k | 0 <= k < |longer| ensures PassedAt(s, longer, k) {
      if k < |history| {
        assert longer[..k] == history[..k];
        assert PassedAt(s, history, k);
      }
    }
  }

  /** A step commits nothing, or exactly one operation that is done where it stands. */
  ghost predicate PassedStep(sys: System, sys': System) {
    || (sys'.store == sys.store && sys'.history == sys.history)
    || exists c: Commit :: sys'.history == sys.history + [c] && WellFormed(c.op) &&
         OutcomeWith(sys.store, c.op, c.clock, true) == Outcome(sys'.store, Done)
  }

  lemma SameIsPassed(sys: System, sys': System)
    requires sys'.store == sys.store && sys'.history == sys.history
    ensures PassedStep(sys, sys')
  {
    hide OutcomeWith, WellFormed;
  }

  lemma CommitPassedStep(sys: System, i: nat)
    requires SystemInv(sys) && i < |sys.workers| && CommitReady(sys.store, sys.workers[i])
    ensures PassedStep(sys, CommitWork(sys, i))
  {
    hide SystemInv, CommitEffect, CommitReady, OutcomeWith, Unoccupied, HoldsOnly, KnowsAt, WellFormed;
    WorkerAt(sys, i);
    var w := sys.workers[i];
    CommitIsPassed(sys.store, w);
    var c := Commit(w.op, w.clock);
    assert CommitWork(sys, i).history == sys.history + [c];
  }

  lemma WritingPassed(sys: System, i: nat, n: nat)
    requires SystemInv(sys) && i < |sys.workers| && sys.workers[i].pc == Writing(n)
    ensures PassedStep(sys, AtWriting(sys, i, n))
  {
    hide SystemInv, PassedStep, CommitWork, Blocked, WellFormed, Inserted, Statements, HoldsOnly, Unoccupied;
    WorkerAt(sys, i);
    var w := sys.workers[i];
    InsertedAtMost(sys.store, w, n);
    if n >= |Statements(w.op, w.posting)| {
      CommitPassedStep(sys, i);
    } else {
      SameIsPassed(sys, AtWriting(sys, i, n));
    }
  }

  lemma UpdatingPassed(sys: System, i: nat)
    requires SystemInv(sys) && i < |sys.workers| && sys.workers[i].pc == Updating
    ensures PassedStep(sys, AtUpdating(sys, i))
  {
    hide SystemInv, PassedStep, CommitWork, Blocked, HoldIndex, WellFormed, HoldsOnly, Unoccupied;
    WorkerAt(sys, i);
    var id := HoldOf(sys.workers[i].op);
    SameIsPassed(sys, sys);
    SameIsPassed(sys, Stop(sys, i, Refused(HoldNotAuthorized)));
    if FindHold(sys.store, id).Some? && FindHold(sys.store, id).value.status == Authorized {
      CommitPassedStep(sys, i);
    }
  }

  lemma StepIsPassed(sys: System, m: Move)
    requires SystemInv(sys)
    ensures PassedStep(sys, Step(sys, m))
  {
    hide SystemInv, PassedStep, AtWriting, AtUpdating, AtStart, AtLockOwn, AtLockHold, AtLocking, AtRecheck,
         AtValidating, AtReread;
    SameIsPassed(sys, sys);
    match m {
      case Advance(i, pick) =>
        if i < |sys.workers| {
          match sys.workers[i].pc {
            case Writing(n) => WritingPassed(sys, i, n);
            case Updating => UpdatingPassed(sys, i);
            case _ => QuietStep(sys, i, pick); SameIsPassed(sys, AdvanceWorker(sys, i, pick));
          }
        }
      case Crash(i) => SameIsPassed(sys, Step(sys, m));
      case Tick(elapsed) => SameIsPassed(sys, Step(sys, m));
    }
  }

  /** Whatever the amounts and the timing, every run's committed database is that of a serial execution of
      its committed operations in commit order, every one of them done; only the balance tests are taken
      from the run itself. */
  lemma {:induction false} RunIsPassed(sys: System, schedule: seq<Move>)
    requires Initial(sys) && SoundRows(sys.store)
    ensures AllPassed(sys.store, Run(sys, schedule).history)
    ensures Run(sys, schedule).store == Passed(sys.store, Run(sys, schedule).history)
  {
    hide Initial, SystemInv, SoundRows, Step, OutcomeWith, WellFormed, PassedAt;
    if schedule == [] {
      StartsEmpty(sys);
    } else {
      var before, m := schedule[..|schedule| - 1], schedule[|schedule| - 1];
      var mid := Run(sys, before);
      RunIsPassed(sys, before);
      RunKeeps(sys, before);
      StepIsPassed(mid, m);
      var last := Step(mid, m);
      if !(last.store == mid.store && last.history == mid.history) {
        var c: Commit :| last.history == mid.history + [c] && WellFormed(c.op) &&
          OutcomeWith(mid.store, c.op, c.clock, true) == Outcome(last.store, Done);
        PassedAppend(sys.store, mid.history, c, last.store);
      }
    }
  }

  lemma StartsEmpty(sys: System)
    requires Initial(sys)
    ensures sys.history == []
  {
  }

  // ---------------------------------------------------------------- the ledger invariant, over every run

  lemma {:induction false} PassedKeepsLedger(s: Store, history: seq<Commit>)
    requires LedgerInv(s) && AllPassed(s, history)
    ensures LedgerInv(Passed(s, history))
  {
    hide LedgerInv, OutcomeWith, WellFormed;
    if history != [] {
      var n := |history| - 1;
      assert AllPassed(s, history[..n]) by {
        forall k | 0 <= k < n ensures PassedAt(s, history[..n], k) {
          assert history[..n][..k] == history[..k];
          assert PassedAt(s, history, k);
        }
      }
      PassedKeepsLedger(s, history[..n]);
      assert PassedAt(s, history, n);
      OutcomeKeeps(Passed(s, history[..n]), history[n].op, history[n].clock, true);
    }
  }

  /** In every reachable database: transaction, entry and hold ids are unique, no transaction is reversed
      twice, idempotency rows and transactions correspond one to one, and each committed posting left exactly
      one event per wallet it touches. */
  lemma {:induction false} RunKeepsLedger(sys: System, schedule: seq<Move>)
    requires Initial(sys) && LedgerInv(sys.store)
    ensures LedgerInv(Run(sys, schedule).store)
  {
    hide Initial, Run, SoundRows, DistinctTransactions, SoundReversals, KnownAccounts, KeysMatchLog, OutboxComplete,
         DistinctHolds, AllPassed;
    RunIsPassed(sys, schedule);
    PassedKeepsLedger(sys.store, Run(sys, schedule).history);
  }

  /** In every reachable database debits equal credits in each currency, and the balances of all accounts in
      that currency sum to zero. */
  lemma {:induction false} RunConserves(sys: System, schedule: seq<Move>, accounts: seq<Id>, currency: string)
    requires Initial(sys) && LedgerInv(sys.store)
    requires Distinct(accounts) && forall a :: a in Run(sys, schedule).store.accounts ==> a in accounts
    ensures var log := Run(sys, schedule).store.log;
            && BookedIn(log, currency, Debit) == BookedIn(log, currency, Credit)
            && SumAccounts(accounts, log, currency, Credit) - SumAccounts(accounts, log, currency, Debit) == 0
  {
    hide Initial, Run, DistinctTransactions, SoundReversals, KeysMatchLog, OutboxComplete, DistinctHolds, Constructed,
         ConstructedHolds;
    RunKeepsLedger(sys, schedule);
    var log := Run(sys, schedule).store.log;
    BooksBalance(log, currency);
    BalancesSumToZero(accounts, log, currency);
  }

  // ---------------------------------------------------------------- nothing is forgotten

  /** s' extends s: facts are appended, keys stay, and a hold only leaves the authorized status. */
  ghost predicate Grows(s: Store, s': Store) {
    && s.log <= s'.log
    && (forall key :: key in s.keys ==> key in s'.keys && s'.keys[key] == s.keys[key])
    && |s.holds| <= |s'.holds|
    && (forall i :: 0 <= i < |s.holds| ==>
          SameHold(s.holds[i], s'.holds[i]) && (s.holds[i].status != Authorized ==> s'.holds[i] == s.holds[i]))
  }

  lemma GrowsTransitive(s0: Store, s1: Store, s2: Store)
    requires Grows(s0, s1) && Grows(s1, s2)
    ensures Grows(s0, s2)
  {
    assert s0.log == s2.log[..|s0.log|] by {
      assert s1.log == s2.log[..|s1.log|] && s0.log == s1.log[..|s0.log|];
    }
    forall i | 0 <= i < |s0.holds|
      ensures SameHold(s0.holds[i], s2.holds[i]) && (s0.holds[i].status != Authorized ==> s2.holds[i] == s0.holds[i])
    {
      assert SameHold(s0.holds[i], s1.holds[i]) && SameHold(s1.holds[i], s2.holds[i]);
    }
  }

  lemma InsertGrows(s: Store, tx: Transaction, key: string, hash: string)
    requires key !in s.keys
    ensures Grows(s, Insert(s, tx, key, hash))
  {
    hide TouchedWallets;
  }

  lemma StatusGrows(s: Store, id: Id, status: HoldStatus)
    ensures Grows(s, SetStatus(s, id, status))
  {
    hide HoldIndex;
  }

  lemma HoldGrows(s: Store, h: Hold)
    ensures Grows(s, s.(holds := s.holds + [h]))
  {
  }

  lemma OutcomeGrows(s: Store, op: Op, c: Clock, fits: bool)
    ensures Grows(s, OutcomeWith(s, op, c, fits).store)
  {
    hide Grows, Insert, SetStatus, FindHold, FindHoldByKey, CheckKey, HasTransaction, HasEntry, HasPosting,
         HasReversalOf, DistinctIds;
    GrowsReflexive(s);
    match op {
      case Post(tx, key, hash) => if key !in s.keys { InsertGrows(s, tx, key, hash); }
      case Authorize(h) => HoldGrows(s, h);
      case Capture(id, tx, key, hash) =>
        StatusGrows(s, id, Captured);
        if key !in s.keys {
          InsertGrows(s, tx, key, hash);
          StatusGrows(Insert(s, tx, key, hash), id, Captured);
          GrowsTransitive(s, Insert(s, tx, key, hash), SetStatus(Insert(s, tx, key, hash), id, Captured));
        }
      case Release(id) => StatusGrows(s, id, Released);
      case Expire(id) => StatusGrows(s, id, Expired);
    }
  }

  lemma {:induction false} PassedGrows(s: Store, history: seq<Commit>, k: nat)
    requires k <= |history|
    ensures Grows(Passed(s, history[..k]), Passed(s, history))
  {
    hide OutcomeWith, Grows;
    if k == |history| {
      assert history[..k] == history;
      GrowsReflexive(Passed(s, history));
    } else {
      var n := |history| - 1;
      assert history[..n][..k] == history[..k];
      PassedGrows(s, history[..n], k);
      OutcomeGrows(Passed(s, history[..n]), history[n].op, history[n].clock, true);
      GrowsTransitive(Passed(s, history[..k]), Passed(s, history[..n]), Passed(s, history));
    }
  }

  lemma GrowsReflexive(s: Store)
    ensures Grows(s, s)
  {
  }

  lemma PostRecordsKey(s: Store, op: Op, c: Clock)
    requires PostLike(op) && OutcomeWith(s, op, c, true).verdict == Done
    ensures var s' := OutcomeWith(s, op, c, true).store;
            op.key in s'.keys && s'.keys[op.key] == KeyRow(op.hash, op.tx.id)
  {
    hide HoldIndex, TouchedWallets, Insertable;
  }

  /** At most once: after an operation posted under a key, at any later point of any run, posting again with
      the same key, hash and transaction id succeeds as a replay and every other use of the key is a conflict,
      neither changing anything, whatever the balances say. */
  lemma {:induction false} PostedAtMostOnce(sys: System, schedule: seq<Move>, i: nat, again: Op, c: Clock, fits: bool)
    requires Initial(sys) && SoundRows(sys.store) && i < |Run(sys, schedule).history|
    requires PostLike(Run(sys, schedule).history[i].op) && again.Post?
    requires again.key == Run(sys, schedule).history[i].op.key
    ensures var s := Run(sys, schedule).store;
            var first := Run(sys, schedule).history[i].op;
            OutcomeWith(s, again, c, fits) ==
            Outcome(s, if again.hash == first.hash && again.tx.id == first.tx.id then Replayed
                       else Refused(IdempotencyConflict))
  {
    hide Initial, Run, SoundRows, Passed, WellFormed, Insertable, Insert, AuthorizeOutcome, CaptureOutcome,
         ReleaseOutcome, ExpireOutcome;
    RunIsPassed(sys, schedule);
    KeyStays(sys.store, Run(sys, schedule).history, i);
  }

  lemma {:induction false} KeyStays(s: Store, history: seq<Commit>, i: nat)
    requires AllPassed(s, history) && i < |history| && PostLike(history[i].op)
    ensures var keys := Passed(s, history).keys;
            history[i].op.key in keys && keys[history[i].op.key] == KeyRow(history[i].op.hash, history[i].op.tx.id)
  {
    hide OutcomeWith, WellFormed, Passed;
    assert PassedAt(s, history, i);
    PostRecordsKey(Passed(s, history[..i]), history[i].op, history[i].clock);
    PassedNext(s, history, i);
    PassedGrows(s, history, i + 1);
  }

  // ---------------------------------------------------------------- one outcome per hold

  predicate Ends(op: Op, id: Id) {
    (op.Capture? && op.holdId == id) || (op.Release? && op.holdId == id) || (op.Expire? && op.holdId == id)
  }

  function Ending(op: Op): HoldStatus {
    match op
    case Capture(_, _, _, _) => Captured
    case Release(_) => Released
    case _ => Expired
  }

  /** An operation that ends a hold found it authorized and leaves it in the operation's terminal status. */
  lemma EndingEnds(s: Store, op: Op, c: Clock, id: Id)
    requires Ends(op, id) && OutcomeWith(s, op, c, true).verdict == Done
    ensures FindHold(s, id).Some? && FindHold(s, id).value.status == Authorized
    ensures var s' := OutcomeWith(s, op, c, true).store;
            FindHold(s', id) == Some(FindHold(s, id).value.(status := Ending(op)))
  {
    hide HoldIndex, TouchedWallets, Insertable, CheckKey, SetStatus;
    FindAfterStatus(s, id, Ending(op), id);
    if op.Capture? {
      var posted := Insert(s, op.tx, op.key, op.hash);
      assert FindHold(posted, id) == FindHold(s, id);
      FindAfterStatus(posted, id, Captured, id);
    }
  }

  lemma TerminalStays(s: Store, s': Store, id: Id)
    requires Grows(s, s') && FindHold(s, id).Some? && FindHold(s, id).value.status != Authorized
    ensures FindHold(s', id) == FindHold(s, id)
  {
    hide HoldIndex;
    var i := HoldIndex(s.holds, id);
    HoldIndexIs(s'.holds, id, i);
  }

  /** Under any interleaving of captures, releases and expirations of one hold, at most one of them commits. */
  lemma {:induction false} AtMostOneEnding(sys: System, schedule: seq<Move>, i: nat, j: nat, id: Id)
    requires Initial(sys) && SoundRows(sys.store) && i < j < |Run(sys, schedule).history|
    requires Ends(Run(sys, schedule).history[i].op, id)
    ensures !Ends(Run(sys, schedule).history[j].op, id)
  {
    hide Initial, Run, SoundRows, OutcomeWith, Passed, WellFormed, FindHold, Grows;
    var history := Run(sys, schedule).history;
    RunIsPassed(sys, schedule);
    assert PassedAt(sys.store, history, i) && PassedAt(sys.store, history, j);
    var s := sys.store;
    EndingEnds(Passed(s, history[..i]), history[i].op, history[i].clock, id);
    PassedNext(s, history, i);
    assert history[..j][..i + 1] == history[..i + 1];
    PassedGrows(s, history[..j], i + 1);
    TerminalStays(Passed(s, history[..i + 1]), Passed(s, history[..j]), id);
    if Ends(history[j].op, id) {
      EndingEnds(Passed(s, history[..j]), history[j].op, history[j].clock, id);
    }
  }

  /** The committed ending decides the hold's status for good. */
  lemma {:induction false} EndingIsFinal(sys: System, schedule: seq<Move>, i: nat, id: Id)
    requires Initial(sys) && SoundRows(sys.store) && i < |Run(sys, schedule).history|
    requires Ends(Run(sys, schedule).history[i].op, id)
    ensures FindHold(Run(sys, schedule).store, id).Some?
    ensures FindHold(Run(sys, schedule).store, id).value.status == Ending(Run(sys, schedule).history[i].op)
  {
    hide Initial, Run, SoundRows, OutcomeWith, Passed, WellFormed, FindHold, Grows;
    var history := Run(sys, schedule).history;
    RunIsPassed(sys, schedule);
    assert PassedAt(sys.store, history, i);
    EndingEnds(Passed(sys.store, history[..i]), history[i].op, history[i].clock, id);
    PassedNext(sys.store, history, i);
    PassedGrows(sys.store, history, i + 1);
    TerminalStays(Passed(sys.store, history[..i + 1]), Passed(sys.store, history), id);
  }

  /** A hold whose status differs from what it was at the start was ended by some committed operation. */
  lemma {:induction false} StatusHasCause(s: Store, history: seq<Commit>, id: Id) returns (i: nat)
    requires AllPassed(s, history)
    requires FindHold(Passed(s, history), id).Some? && FindHold(Passed(s, history), id).value.status != Authorized
    requires FindHold(s, id).Some? ==> FindHold(s, id).value.status == Authorized
    ensures i < |history| && Ends(history[i].op, id)
    ensures FindHold(Passed(s, history), id).value.status == Ending(history[i].op)
  {
    hide OutcomeWith, WellFormed, FindHold;
    i := 0;
    if history == [] {
      assert false;
    } else {
      var n := |history| - 1;
      var before := Passed(s, history[..n]);
      assert PassedAt(s, history, n);
      if Ends(history[n].op, id) {
        EndingEnds(before, history[n].op, history[n].clock, id);
        i := n;
      } else {
        OthersLeaveHold(before, history[n].op, history[n].clock, id);
        assert AllPassed(s, history[..n]) by {
          forall k | 0 <= k < n ensures PassedAt(s, history[..n], k) {
            assert history[..n][..k] == history[..k];
            assert PassedAt(s, history, k);
          }
        }
        i := StatusHasCause(s, history[..n], id);
      }
    }
  }

  lemma OthersLeaveHold(s: Store, op: Op, c: Clock, id: Id)
    requires !Ends(op, id) && WellFormed(op)
    ensures var s' := OutcomeWith(s, op, c, true).store;
            FindHold(s', id).Some? && FindHold(s', id).value.status != Authorized ==>
              FindHold(s', id) == FindHold(s, id)
  {
    hide HoldIndex, TouchedWallets, Insertable, CheckKey, SetStatus, HoldKeyIndex, Constructed;
    match op {
      case Post(_, _, _) =>
      case Authorize(h) => FindAfterAppend(s, h, id);
      case Capture(other, tx, key, hash) =>
        FindAfterStatus(s, other, Captured, id);
        FindAfterStatus(Insert(s, tx, key, hash), other, Captured, id);
      case Release(other) => FindAfterStatus(s, other, Released, id);
      case Expire(other) => FindAfterStatus(s, other, Expired, id);
    }
  }

  /** A hold that became captured has its transaction in the ledger, under the capture's own key. */
  lemma {:induction false} CapturedHasTransaction(sys: System, schedule: seq<Move>, id: Id) returns (i: nat)
    requires Initial(sys) && LedgerInv(sys.store)
    requires FindHold(sys.store, id).Some? ==> FindHold(sys.store, id).value.status == Authorized
    requires FindHold(Run(sys, schedule).store, id).Some?
    requires FindHold(Run(sys, schedule).store, id).value.status == Captured
    ensures i < |Run(sys, schedule).history|
    ensures var op := Run(sys, schedule).history[i].op;
            var s := Run(sys, schedule).store;
            && op.Capture? && op.holdId == id
            && op.key in s.keys && s.keys[op.key] == KeyRow(op.hash, op.tx.id)
            && Logged(s.log, op.tx.id)
  {
    hide Initial, Run, SoundRows, DistinctTransactions, SoundReversals, KnownAccounts, OutboxComplete, DistinctHolds,
         Passed, WellFormed, FindHold, PassedAt;
    RunIsPassed(sys, schedule);
    RunKeepsLedger(sys, schedule);
    i := StatusHasCause(sys.store, Run(sys, schedule).history, id);
    KeyStays(sys.store, Run(sys, schedule).history, i);
  }
}
