/** The interleaved system refines serial execution, and never overdraws a wallet. */
module Refinement {
  import opened Prelude
  import opened Money
  import opened Journal
  import opened Ledger
  import opened Balances
  import opened Workers
  import opened Interference
  import opened Safety
  import opened Interleaving

  // ---------------------------------------------------------------- solvency, step by step

  lemma AssessedAt(sys: System, i: nat)
    requires Solvent(sys) && i < |sys.workers|
    ensures Assessed(sys.store, sys.workers[i])
  {
    hide Assessed, NonNegative;
  }

  /** Steps that change one worker and no row. */
  lemma QuietSolvent(sys: System, sys': System, i: nat)
    requires Solvent(sys) && i < |sys.workers|
    requires sys'.store == sys.store && sys'.now == sys.now && |sys'.workers| == |sys.workers|
    requires sys'.workers == sys.workers[i := sys'.workers[i]] && Assessed(sys.store, sys'.workers[i])
    ensures Solvent(sys')
  {
    hide Assessed, NonNegative;
  }

  /** A passed test whose exact value lies in the word's range really covers the effect. */
  lemma ValidatedIsCovered(sys: System, i: nat, a: Id)
    requires SystemInv(sys) && NonNegative(sys.store, sys.now) && i < |sys.workers|
    requires Writes(sys.workers[i].op) && a in Guarded(sys.store, sys.workers[i].op)
    requires Accepts64(sys.store, sys.workers[i].op, a, sys.workers[i].clock.began)
    requires Projected(sys.store, sys.workers[i].op, a, sys.workers[i].clock.began) >= MIN_INT64
    ensures Projected(sys.store, sys.workers[i].op, a, sys.workers[i].clock.began) >= 0
  {
    hide SystemInv, Available, Accepts64, Effect, SoundRows, LedgerBalance, Projected;
    WorkerWellFormed(sys, i);
    RowsArePositive(sys);
    BookedAtLeastAvailable(sys.store, a, sys.now);
    GuardedIsWallet(sys.store, sys.workers[i].op, a);
    NonNegativeAt(sys.store, a, sys.now);
    AcceptedIsTrueIffInWindow(sys.store, sys.workers[i].op, a, sys.workers[i].clock.began);
  }

  /** One whose exact value lies below the range should have failed. */
  lemma ValidatedIsUncovered(sys: System, i: nat, a: Id)
    requires SystemInv(sys) && NonNegative(sys.store, sys.now) && i < |sys.workers|
    requires Writes(sys.workers[i].op) && a in Guarded(sys.store, sys.workers[i].op)
    requires Accepts64(sys.store, sys.workers[i].op, a, sys.workers[i].clock.began)
    requires Projected(sys.store, sys.workers[i].op, a, sys.workers[i].clock.began) < MIN_INT64
    ensures Uncovered(sys.store, sys.workers[i].op)
  {
    hide SystemInv, Available, Effect, SoundRows, LedgerBalance, Projected, Readable, WellFormed, Wrap;
    var s, op, began := sys.store, sys.workers[i].op, sys.workers[i].clock.began;
    WorkerWellFormed(sys, i);
    RowsArePositive(sys);
    BookedAtLeastAvailable(s, a, sys.now);
    GuardedIsWallet(s, op, a);
    NonNegativeAt(s, a, sys.now);
    FarBelowIsOverdraft(s, op, a, began);
    if op.Authorize? { HoldTestMeaning(s, op, a, began); }
  }

  lemma GuardedIsWallet(s: Store, op: Op, a: Id)
    requires a in Guarded(s, op)
    ensures a in s.wallets.Values
  {
  }

  lemma AllValidatedIsCovered(s: Store, w: Worker)
    requires Covered(s, w, {})
    ensures Covered(s, w.(pc := Writing(0)), {})
  {
    hide Guarded, Projected;
  }

  lemma CoveredShrinks(s: Store, w: Worker, todo: set<Id>, pick: Id)
    requires Covered(s, w, todo)
    requires pick in Guarded(s, w.op) ==> Projected(s, w.op, pick, w.clock.began) >= 0
    ensures Covered(s, w, todo - {pick})
  {
    hide Guarded, Projected;
  }

  lemma ValidatingSolvent(sys: System, i: nat, todo: set<Id>, pick: Id)
    requires SystemInv(sys) && Solvent(sys) && i < |sys.workers| && sys.workers[i].pc == Validating(todo)
    ensures Solvent(AtValidating(sys, i, todo, pick))
  {
    hide SystemInv, Solvent, Accepts64, Projected, Guarded, Covered, Uncovered, NonNegative;
    AssessedAt(sys, i);
    SolventNow(sys);
    ValidatingWrites(sys, i);
    var w := sys.workers[i];
    var after := AtValidating(sys, i, todo, pick);
    if todo == {} {
      if w.exact { AllValidatedIsCovered(sys.store, w); }
    } else if pick in todo && Accepts64(sys.store, w.op, pick, w.clock.began) {
      ValidatedIsGuarded(sys, i, todo, pick);
      if after.workers[i].exact {
        ValidatedIsCovered(sys, i, pick);
        CoveredShrinks(sys.store, w, todo, pick);
        CoveredRides(sys.store, w, after.workers[i], todo - {pick});
      } else if w.exact {
        ValidatedIsUncovered(sys, i, pick);
      }
    }
    QuietSolvent(sys, after, i);
  }

  lemma ValidatedIsGuarded(sys: System, i: nat, todo: set<Id>, pick: Id)
    requires SystemInv(sys) && i < |sys.workers| && sys.workers[i].pc == Validating(todo) && pick in todo
    ensures pick in Guarded(sys.store, sys.workers[i].op)
  {
    hide SystemInv, Guarded, Ready, LocksWallets, HoldsOnly, Unoccupied, WellFormed;
    WorkerAt(sys, i);
  }

  lemma SolventNow(sys: System)
    requires Solvent(sys)
    ensures NonNegative(sys.store, sys.now)
  {
    hide Assessed, NonNegative;
  }

  lemma ValidatingWrites(sys: System, i: nat)
    requires SystemInv(sys) && i < |sys.workers| && sys.workers[i].pc.Validating?
    ensures Writes(sys.workers[i].op) && sys.workers[i].posting
  {
    hide SystemInv, HoldsOnly, Unoccupied, WellFormed, Ready, LocksWallets;
    WorkerAt(sys, i);
  }

  /** Before validation a worker has nothing to cover: every other reading statement is harmless. */
  lemma ReadingSolvent(sys: System, i: nat, pick: Id)
    requires SystemInv(sys) && Solvent(sys) && i < |sys.workers|
    requires !sys.workers[i].pc.Validating? && !sys.workers[i].pc.Writing? && !sys.workers[i].pc.Updating?
    ensures Solvent(AdvanceWorker(sys, i, pick))
  {
    hide SystemInv, Solvent, HoldIndex, HoldKeyIndex, SortedAccounts, Blocked, CheckKey, Accepts64, Projected, Covered,
         OwnAccount, FindHold, FindHoldByKey;
    AssessedAt(sys, i);
    QuietStep(sys, i, pick);
    var after := AdvanceWorker(sys, i, pick);
    if sys.workers[i].pc.Recheck? {
      RecheckCovers(sys, i);
    }
    QuietSolvent(sys, after, i);
  }

  lemma RecheckCovers(sys: System, i: nat)
    requires SystemInv(sys) && i < |sys.workers| && sys.workers[i].pc == Recheck
    requires Assessed(sys.store, sys.workers[i])
    ensures Assessed(sys.store, AtRecheck(sys, i).workers[i])
  {
    hide SystemInv, CheckKey, FindHoldByKey, Guarded, Projected;
  }

  lemma CommitKeepsNonNegative(sys: System, i: nat)
    requires SystemInv(sys) && Solvent(sys) && i < |sys.workers| && CommitReady(sys.store, sys.workers[i])
    requires sys.workers[i].exact
    ensures NonNegative(CommitWork(sys, i).store, sys.now)
    ensures Apply(sys.store, sys.workers[i].op, sys.workers[i].clock) == Outcome(CommitWork(sys, i).store, Done)
    ensures sys.workers[i].clock.began <= sys.now
  {
    hide SystemInv, Solvent, SoundRows, NonNegative, OutcomeWith, CommitEffect, KnowsAt, CommitReady, Unoccupied, Fits,
         Funded, HoldsOnly, WellFormed;
    var s, w := sys.store, sys.workers[i];
    WorkerAt(sys, i);
    AssessedAt(sys, i);
    SolventNow(sys);
    RowsArePositive(sys);
    CommitReadyActive(s, w);
    CommitIsSerial(s, w);
    OutcomeKeepsNonNegative(s, w.op, w.clock, Fits(s, w.op, w.clock.began), sys.now);
  }

  lemma CommitReadyActive(s: Store, w: Worker)
    requires CommitReady(s, w)
    ensures w.pc.Writing? || w.pc.Updating?
  {
  }

  lemma CommitSolvent(sys: System, i: nat)
    requires SystemInv(sys) && Solvent(sys) && i < |sys.workers| && CommitReady(sys.store, sys.workers[i])
    requires sys.workers[i].exact
    requires sys.workers[i].pc.Updating? ==> !Blocked(sys, i, {HoldRow(HoldOf(sys.workers[i].op))})
    ensures Solvent(CommitWork(sys, i))
  {
    hide SystemInv, SoundRows, NonNegative, CommitEffect, CommitReady, KnowsAt, Blocked, HoldOf, Assessed, Evolves,
         WellFormed, Unoccupied, HoldsOnly;
    CommitKeepsNonNegative(sys, i);
    var after := CommitWork(sys, i);
    forall j | 0 <= j < |sys.workers| ensures Assessed(after.store, after.workers[j]) {
      if j == i {
        FinishedIsAssessed(after.store, after.workers[j]);
      } else {
        OthersEvolve(sys, i, j);
        WorkerAt(sys, j);
        AssessedStable(sys.store, after.store, sys.workers[j]);
      }
    }
  }

  lemma FinishedIsAssessed(s: Store, w: Worker)
    requires w.pc.Finished?
    ensures Assessed(s, w)
  {
  }

  lemma WritingSolvent(sys: System, i: nat, n: nat)
    requires SystemInv(sys) && Solvent(sys) && i < |sys.workers| && sys.workers[i].pc == Writing(n)
    requires AtWriting(sys, i, n).inWindow
    ensures Solvent(AtWriting(sys, i, n))
  {
    hide SystemInv, Solvent, Blocked, Statements, CommitEffect, Covered, Uncovered, WellFormed, Unoccupied, HoldsOnly,
         Ready, Inserted, LocksWallets, Replaying, Taken, RowAllowed;
    AssessedAt(sys, i);
    var w := sys.workers[i];
    if n >= |Statements(w.op, w.posting)| {
      WorkerAt(sys, i);
      InsertedAtMost(sys.store, w, n);
      CommitSolvent(sys, i);
    } else {
      if w.exact && w.posting { CoveredRides(sys.store, w, AtWriting(sys, i, n).workers[i], {}); }
      QuietSolvent(sys, AtWriting(sys, i, n), i);
    }
  }

  lemma CoveredRides(s: Store, w: Worker, w': Worker, todo: set<Id>)
    requires Covered(s, w, todo) && w'.op == w.op && w'.clock == w.clock
    ensures Covered(s, w', todo)
  {
    hide Guarded, Projected;
  }

  lemma UpdatingSolvent(sys: System, i: nat)
    requires SystemInv(sys) && Solvent(sys) && i < |sys.workers| && sys.workers[i].pc == Updating
    ensures Solvent(AtUpdating(sys, i))
  {
    hide SystemInv, Solvent, CommitWork, WellFormed, Blocked, HoldIndex, HoldsOnly, Unoccupied;
    WorkerAt(sys, i);
    AssessedAt(sys, i);
    var id := HoldOf(sys.workers[i].op);
    if !Blocked(sys, i, {HoldRow(id)}) && FindHold(sys.store, id).Some? &&
       FindHold(sys.store, id).value.status == Authorized {
      CommitSolvent(sys, i);
    } else {
      QuietSolvent(sys, AtUpdating(sys, i), i);
    }
  }

  lemma TickSolvent(sys: System, elapsed: nat)
    requires SystemInv(sys) && Solvent(sys)
    ensures Solvent(sys.(now := sys.now + elapsed))
  {
    hide SystemInv, Assessed;
    RowsArePositive(sys);
    var s := sys.store;
    forall a | a in s.wallets.Values ensures Available(s, a, sys.now + elapsed) >= 0 {
      ActiveHoldsLapse(s.wallets, s.holds, a, sys.now, sys.now + elapsed);
    }
  }

  lemma StepSolvent(sys: System, m: Move)
    requires SystemInv(sys) && Solvent(sys) && Step(sys, m).inWindow
    ensures Solvent(Step(sys, m))
  {
    hide SystemInv, Solvent, AtStart, AtLockOwn, AtLockHold, AtLocking, AtRecheck, AtValidating, AtWriting, AtUpdating,
         AtReread, Assessed;
    match m {
      case Advance(i, pick) =>
        if i < |sys.workers| {
          match sys.workers[i].pc {
            case Validating(todo) => ValidatingSolvent(sys, i, todo, pick);
            case Writing(n) => WritingSolvent(sys, i, n);
            case Updating => UpdatingSolvent(sys, i);
            case _ => ReadingSolvent(sys, i, pick);
          }
        }
      case Crash(i) =>
        if i < |sys.workers| && !sys.workers[i].pc.Finished? {
          FinishedIsAssessed(sys.store, Step(sys, m).workers[i]);
          QuietSolvent(sys, Step(sys, m), i);
        }
      case Tick(elapsed) => TickSolvent(sys, elapsed);
    }
  }

  // ---------------------------------------------------------------- serial steps

  predicate Appends(history: seq<Commit>, history': seq<Commit>) {
    |history'| == |history| + 1 && history'[..|history|] == history
  }

  /** A step either leaves the committed database alone or is one serial execution of one operation. */
  ghost predicate SerialStep(sys: System, sys': System) {
    || (sys'.store == sys.store && sys'.history == sys.history)
    || (&& Appends(sys.history, sys'.history)
        && var c := sys'.history[|sys.history|];
           Apply(sys.store, c.op, c.clock) == Outcome(sys'.store, Done) && c.clock.began <= sys.now)
  }

  lemma SameIsSerial(sys: System, sys': System)
    requires sys'.store == sys.store && sys'.history == sys.history
    ensures SerialStep(sys, sys')
  {
    hide Apply;
  }

  lemma CommitSerialStep(sys: System, i: nat)
    requires SystemInv(sys) && Solvent(sys) && i < |sys.workers| && CommitReady(sys.store, sys.workers[i])
    requires sys.workers[i].exact
    ensures SerialStep(sys, CommitWork(sys, i))
  {
    hide SystemInv, Solvent, CommitEffect, CommitReady, Apply;
    CommitKeepsNonNegative(sys, i);
  }

  lemma UpdatingSerial(sys: System, i: nat)
    requires SystemInv(sys) && Solvent(sys) && i < |sys.workers| && sys.workers[i].pc == Updating
    ensures SerialStep(sys, AtUpdating(sys, i))
  {
    hide SystemInv, Solvent, SerialStep, CommitWork, Blocked, HoldIndex, WellFormed, HoldsOnly, Unoccupied;
    WorkerAt(sys, i);
    AssessedAt(sys, i);
    var id := HoldOf(sys.workers[i].op);
    SameIsSerial(sys, sys);
    SameIsSerial(sys, Stop(sys, i, Refused(HoldNotAuthorized)));
    if FindHold(sys.store, id).Some? && FindHold(sys.store, id).value.status == Authorized {
      CommitSerialStep(sys, i);
    }
  }

  lemma WritingSerial(sys: System, i: nat, n: nat)
    requires SystemInv(sys) && Solvent(sys) && i < |sys.workers| && sys.workers[i].pc == Writing(n)
    requires AtWriting(sys, i, n).inWindow
    ensures SerialStep(sys, AtWriting(sys, i, n))
  {
    hide SystemInv, Solvent, SerialStep, CommitEffect, Blocked, WellFormed, Inserted, Statements, HoldsOnly, Unoccupied;
    WorkerAt(sys, i);
    var w := sys.workers[i];
    InsertedAtMost(sys.store, w, n);
    if n >= |Statements(w.op, w.posting)| {
      CommitSerialStep(sys, i);
    } else {
      SameIsSerial(sys, AtWriting(sys, i, n));
    }
  }

  lemma StepIsSerial(sys: System, m: Move)
    requires SystemInv(sys) && Solvent(sys) && Step(sys, m).inWindow
    ensures SerialStep(sys, Step(sys, m))
  {
    hide SystemInv, Solvent, SerialStep, AtWriting, AtUpdating, AtStart, AtLockOwn, AtLockHold, AtLocking, AtRecheck,
         AtValidating, AtReread;
    SameIsSerial(sys, sys);
    match m {
      case Advance(i, pick) =>
        if i < |sys.workers| {
          match sys.workers[i].pc {
            case Writing(n) => WritingSerial(sys, i, n);
            case Updating => UpdatingSerial(sys, i);
            case _ => QuietStep(sys, i, pick); SameIsSerial(sys, AdvanceWorker(sys, i, pick));
          }
        }
      case Crash(i) => SameIsSerial(sys, Step(sys, m));
      case Tick(elapsed) => SameIsSerial(sys, Step(sys, m));
    }
  }

  lemma WindowOnlyCloses(sys: System, m: Move)
    ensures Step(sys, m).inWindow ==> sys.inWindow
  {
    hide HoldIndex, HoldKeyIndex, SortedAccounts, Blocked, Accepts64, Projected, Guarded, CheckKey, CommitEffect,
         Statements, Taken, RowAllowed;
  }

  lemma ReplaysOneMore(s: Store, history: seq<Commit>, c: Commit, s': Store)
    requires AllDone(s, history) && Apply(Replays(s, history), c.op, c.clock) == Outcome(s', Done)
    ensures Replays(s, history + [c]) == s' && AllDone(s, history + [c])
  {
    hide Apply, OutcomeWith;
    var longer := history + [c];
    assert longer[..|history|] == history;
    forall k | 0 <= k < |longer| ensures DoneAt(s, longer, k) {
      if k < |history| {
        assert longer[..k] == history[..k];
        assert DoneAt(s, history, k);
      }
    }
  }

  lemma ReplaysAppend(s: Store, history: seq<Commit>, history': seq<Commit>, s': Store)
    requires AllDone(s, history) && Appends(history, history')
    requires var c := history'[|history|]; Apply(Replays(s, history), c.op, c.clock) == Outcome(s', Done)
    ensures Replays(s, history') == s' && AllDone(s, history')
  {
    hide Apply, AllDone, Replays;
    assert history' == history + [history'[|history|]];
    ReplaysOneMore(s, history, history'[|history|], s');
  }

  lemma FreshIsSolvent(sys: System)
    requires Initial(sys) && NonNegative(sys.store, sys.now)
    ensures Solvent(sys) && sys.history == [] && sys.inWindow
  {
    hide NonNegative, WellFormed;
  }

  /** The interleaved system refines the serial one. For every number of workers, every operation each of
      them runs and every schedule of statements, crashes and clock ticks in which no worker committed that
      had passed a balance test with an exact projected balance below -2^63: the committed database is the
      result of executing the committed operations one at a time, in commit order, each with the clock
      readings it validated with, each of them succeeding; and no wallet is overdrawn. */
  lemma {:induction false} RunIsSerial(sys: System, schedule: seq<Move>)
    requires Initial(sys) && SoundRows(sys.store) && NonNegative(sys.store, sys.now)
    requires Run(sys, schedule).inWindow
    ensures Run(sys, schedule).store == Replays(sys.store, Run(sys, schedule).history)
    ensures AllDone(sys.store, Run(sys, schedule).history)
    ensures Solvent(Run(sys, schedule))
  {
    hide Initial, SystemInv, Solvent, SoundRows, NonNegative, Step, Apply;
    if schedule == [] {
      FreshIsSolvent(sys);
    } else {
      var before, m := schedule[..|schedule| - 1], schedule[|schedule| - 1];
      var mid := Run(sys, before);
      WindowOnlyCloses(mid, m);
      RunIsSerial(sys, before);
      RunKeeps(sys, before);
      StepSolvent(mid, m);
      StepIsSerial(mid, m);
      var last := Step(mid, m);
      if last.history != mid.history {
        ReplaysAppend(sys.store, mid.history, last.history, last.store);
      }
    }
  }

  /** In words a wallet owner would use: credits less debits less active holds never goes below zero. */
  lemma {:induction false} NoWalletOverdrawn(sys: System, schedule: seq<Move>, a: Id)
    requires Initial(sys) && SoundRows(sys.store) && NonNegative(sys.store, sys.now)
    requires Run(sys, schedule).inWindow && a in sys.store.wallets.Values
    ensures Available(Run(sys, schedule).store, a, Run(sys, schedule).now) >= 0
  {
    hide Initial, SystemInv, SoundRows, Available, Run, Funded;
    RunIsSerial(sys, schedule);
    SolventNow(Run(sys, schedule));
    ReplaysKeepWallets(sys.store, Run(sys, schedule).history);
    NonNegativeAt(Run(sys, schedule).store, a, Run(sys, schedule).now);
  }

  lemma {:induction false} ReplaysKeepWallets(s: Store, history: seq<Commit>)
    ensures Replays(s, history).wallets == s.wallets && Replays(s, history).accounts == s.accounts
  {
    hide OutcomeWith, Fits;
    if history != [] {
      var last := history[|history| - 1];
      var before := Replays(s, history[..|history| - 1]);
      ReplaysKeepWallets(s, history[..|history| - 1]);
      ReferenceDataFixed(before, last.op, last.clock, Fits(before, last.op, last.clock.began));
    }
  }

  // ---------------------------------------------------------------- the condition is exact

  /** Only the commit of a worker that is not exact closes the window. */
  lemma ClosingIsCommit(sys: System, m: Move) returns (i: nat)
    requires SystemInv(sys) && Solvent(sys) && sys.inWindow && !Step(sys, m).inWindow
    ensures i < |sys.workers| && sys.workers[i].pc.Writing? && !sys.workers[i].exact
    ensures CommitReady(sys.store, sys.workers[i]) && Step(sys, m) == CommitWork(sys, i)
  {
    hide SystemInv, Solvent, HoldIndex, HoldKeyIndex, SortedAccounts, Blocked, Accepts64, Projected, Guarded, CheckKey,
         CommitEffect, Statements, Taken, RowAllowed, Uncovered, WellFormed, Unoccupied, HoldsOnly, Ready,
         Inserted, LocksWallets, Replaying;
    i := m.worker;
    AssessedAt(sys, i);
    WorkerAt(sys, i);
    match sys.workers[i].pc {
      case Writing(n) => InsertedAtMost(sys.store, sys.workers[i], n);
      case _ =>
    }
  }

  /** It overdraws a wallet, and no serial execution accepts it. */
  lemma InexactCommitOverdraws(sys: System, i: nat)
    requires SystemInv(sys) && Solvent(sys) && i < |sys.workers| && CommitReady(sys.store, sys.workers[i])
    requires sys.workers[i].pc.Writing? && !sys.workers[i].exact
    ensures !NonNegative(CommitWork(sys, i).store, sys.now)
    ensures Apply(sys.store, sys.workers[i].op, sys.workers[i].clock).verdict != Done
  {
    hide SystemInv, Solvent, Available, LedgerBalance, Effect, CommitEffect, Ready, HoldsOnly, WellFormed, OutcomeWith,
         Unoccupied, Guarded;
    var s, w := sys.store, sys.workers[i];
    AssessedAt(sys, i);
    WorkerAt(sys, i);
    RowsArePositive(sys);
    var a :| a in Guarded(s, w.op) && LedgerBalance(s, a) + Effect(w.op, a) < 0;
    GuardedIsWallet(s, w.op, a);
    PostingMovesBooked(s, w, a);
    CommitKeepsSound(sys, i);
    BookedAtLeastAvailable(CommitWork(sys, i).store, a, sys.now);
    FitsMeansBooked(s, w.op, a, w.clock.began);
    InsertedMeansInsertable(s, w);
    InsertableKeyAbsent(s, w.op.tx, w.op.key);
    UnfitIsRefused(s, w.op, w.clock);
  }

  lemma PostingMovesBooked(s: Store, w: Worker, a: Id)
    requires PostLike(w.op) && w.posting
    ensures LedgerBalance(CommitEffect(s, w.op, true), a) == LedgerBalance(s, a) + Effect(w.op, a)
    ensures CommitEffect(s, w.op, true).wallets == s.wallets
  {
    hide HoldIndex, TouchedWallets, LedgerBalance, Delta;
    InsertMoves(s, w.op.tx, w.op.key, w.op.hash, a, 0);
    var posted := Insert(s, w.op.tx, w.op.key, w.op.hash);
    if w.op.Capture? {
      StatusKeepsTables(posted, w.op.holdId, Captured);
      SameBooked(posted, SetStatus(posted, w.op.holdId, Captured), a);
    }
  }

  lemma SameBooked(s: Store, s': Store, a: Id)
    requires s'.log == s.log
    ensures LedgerBalance(s', a) == LedgerBalance(s, a)
  {
  }

  lemma CommitKeepsSound(sys: System, i: nat)
    requires SystemInv(sys) && i < |sys.workers| && CommitReady(sys.store, sys.workers[i])
    requires sys.workers[i].pc.Writing?
    ensures SoundRows(CommitWork(sys, i).store)
  {
    hide SystemInv, CommitWork;
    CommitKeeps(sys, i);
    RowsArePositive(CommitWork(sys, i));
  }

  lemma FitsMeansBooked(s: Store, op: Op, a: Id, t: Time)
    requires SoundRows(s) && a in Guarded(s, op)
    ensures Fits(s, op, t) ==> LedgerBalance(s, a) + Effect(op, a) >= 0
  {
    hide LedgerBalance, Effect;
    ActiveHoldsNonNegative(s.wallets, s.holds, a, t);
  }

  lemma UnfitIsRefused(s: Store, op: Op, c: Clock)
    requires PostLike(op) && op.key !in s.keys
    ensures OutcomeWith(s, op, c, false).verdict != Done
  {
    hide HoldIndex, Insertable, TouchedWallets;
  }

  /** No wallet is overdrawn after the first n moves. */
  predicate SafeAt(sys: System, schedule: seq<Move>, n: nat)
    requires n <= |schedule|
  {
    NonNegative(Run(sys, schedule[..n]).store, Run(sys, schedule[..n]).now)
  }

  lemma SafeBefore(sys: System, schedule: seq<Move>, before: seq<Move>)
    requires schedule != [] && before == schedule[..|schedule| - 1]
    requires forall n :: 0 <= n <= |schedule| ==> SafeAt(sys, schedule, n)
    ensures forall n :: 0 <= n <= |before| ==> SafeAt(sys, before, n)
    ensures NonNegative(Run(sys, schedule).store, Run(sys, schedule).now)
  {
    hide NonNegative, Run;
    assert schedule[..|schedule|] == schedule && SafeAt(sys, schedule, |schedule|);
    forall n | 0 <= n <= |before| ensures SafeAt(sys, before, n) {
      assert before[..n] == schedule[..n] && SafeAt(sys, schedule, n);
    }
  }

  /** If no point of a run sees a wallet overdrawn, no inexact worker has committed. */
  lemma {:induction false} SafeMeansWindow(sys: System, schedule: seq<Move>)
    requires Initial(sys) && SoundRows(sys.store) && NonNegative(sys.store, sys.now)
    requires forall n :: 0 <= n <= |schedule| ==> SafeAt(sys, schedule, n)
    ensures Run(sys, schedule).inWindow
  {
    hide SystemInv, Solvent, SoundRows, NonNegative, Step, Fresh, CommitWork, SafeAt;
    if schedule != [] {
      var before, m := schedule[..|schedule| - 1], schedule[|schedule| - 1];
      SafeBefore(sys, schedule, before);
      SafeMeansWindow(sys, before);
      RunKeeps(sys, before);
      RunIsSerial(sys, before);
      var mid := Run(sys, before);
      if !Step(mid, m).inWindow {
        var i := ClosingIsCommit(mid, m);
        InexactCommitOverdraws(mid, i);
        NowAfterCommit(mid, i);
      }
    }
  }

  lemma NowAfterCommit(sys: System, i: nat)
    requires i < |sys.workers|
    ensures CommitWork(sys, i).now == sys.now
    ensures CommitWork(sys, i).history == sys.history + [Commit(sys.workers[i].op, sys.workers[i].clock)]
  {
    hide CommitEffect;
  }

  /** The exact condition. At every point of a run every wallet has a non-negative available balance if and only if
      every worker that committed was exact. */
  lemma {:induction false} SafeIffInWindow(sys: System, schedule: seq<Move>)
    requires Initial(sys) && SoundRows(sys.store) && NonNegative(sys.store, sys.now)
    ensures (forall n :: 0 <= n <= |schedule| ==> SafeAt(sys, schedule, n)) <==> Run(sys, schedule).inWindow
  {
    hide Initial, SoundRows, NonNegative, Run, Solvent, AllDone, Replays;
    if Run(sys, schedule).inWindow {
      forall n | 0 <= n <= |schedule| ensures SafeAt(sys, schedule, n) {
        PrefixInWindow(sys, schedule, n);
        RunIsSerial(sys, schedule[..n]);
        SolventNow(Run(sys, schedule[..n]));
      }
    } else if forall n :: 0 <= n <= |schedule| ==> SafeAt(sys, schedule, n) {
      SafeMeansWindow(sys, schedule);
    }
  }

  lemma {:induction false} PrefixInWindow(sys: System, schedule: seq<Move>, n: nat)
    requires n <= |schedule| && Run(sys, schedule).inWindow
    ensures Run(sys, schedule[..n]).inWindow
  {
    hide Step;
    if n == |schedule| {
      assert schedule[..n] == schedule;
    } else {
      var before := schedule[..|schedule| - 1];
      WindowOnlyCloses(Run(sys, before), schedule[|schedule| - 1]);
      PrefixInWindow(sys, before, n);
      assert before[..n] == schedule[..n];
    }
  }

  lemma AllDonePrefix(s: Store, history: seq<Commit>, longer: seq<Commit>)
    requires AllDone(s, longer) && history <= longer
    ensures AllDone(s, history)
    ensures |longer| == |history| + 1 ==>
              Apply(Replays(s, history), longer[|history|].op, longer[|history|].clock).verdict == Done
  {
    hide Apply, Replays;
    forall k | 0 <= k < |history| ensures DoneAt(s, history, k) {
      assert DoneAt(s, longer, k) && history[..k] == longer[..k] && history[k] == longer[k];
    }
    if |longer| == |history| + 1 {
      assert DoneAt(s, longer, |history|) && longer[..|history|] == history;
    }
  }

  lemma HistoryGrows(sys: System, m: Move)
    ensures sys.history <= Step(sys, m).history
  {
    hide HoldIndex, HoldKeyIndex, SortedAccounts, Blocked, Accepts64, Projected, Guarded, CheckKey, CommitEffect,
         Statements, Taken, RowAllowed;
  }

  /** The same condition decides whether the run is serial: the committed operations, executed one at a time in commit
      order with exact balance tests, are all accepted if and only if every worker that committed was exact. */
  lemma {:induction false} SerialIffInWindow(sys: System, schedule: seq<Move>)
    requires Initial(sys) && SoundRows(sys.store) && NonNegative(sys.store, sys.now)
    ensures AllDone(sys.store, Run(sys, schedule).history) <==> Run(sys, schedule).inWindow
  {
    hide Initial, SystemInv, Solvent, SoundRows, NonNegative, Step, Apply, AllDone, Replays, CommitWork;
    if Run(sys, schedule).inWindow {
      RunIsSerial(sys, schedule);
    } else if AllDone(sys.store, Run(sys, schedule).history) {
      if schedule == [] {
        FreshIsSolvent(sys);
        assert false;
      }
      var before, m := schedule[..|schedule| - 1], schedule[|schedule| - 1];
      var mid := Run(sys, before);
      HistoryGrows(mid, m);
      AllDonePrefix(sys.store, mid.history, Step(mid, m).history);
      SerialIffInWindow(sys, before);
      RunKeeps(sys, before);
      RunIsSerial(sys, before);
      var i := ClosingIsCommit(mid, m);
      InexactCommitOverdraws(mid, i);
      NowAfterCommit(mid, i);
    }
  }
}
