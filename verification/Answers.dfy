/** What a worker's answer is worth: in every run each answer is true of the database when it is given, what it
    reports as recorded stays recorded, and the workers that report success for a commit are the history. */
module Answers {
  import opened Prelude
  import opened Ledger
  import opened Balances
  import opened Workers
  import opened Interference
  import opened Safety
  import opened Interleaving
  import opened Bookkeeping
  import opened Histories
  import Solo
  import KeyRaces
  import Progress

  // ---------------------------------------------------------------- what an answer says

  /** The request's own row is recorded under its key. */
  predicate OwnRow(s: Store, op: Op)
    requires PostLike(op)
  {
    op.key in s.keys && s.keys[op.key] == KeyRow(op.hash, op.tx.id)
  }

  /** Another row is. */
  predicate OtherRow(s: Store, op: Op)
    requires PostLike(op)
  {
    op.key in s.keys && s.keys[op.key] != KeyRow(op.hash, op.tx.id)
  }

  /** The wallet has a hold under the request's key, made by the same request or by another. */
  predicate HoldUnderKey(s: Store, op: Op, same: bool)
    requires op.Authorize?
  {
    match FindHoldByKey(s, op.hold.wallet, op.hold.key)
    case None => false
    case Some(existing) => existing.hash == op.hold.hash <==> same
  }

  predicate HoldIs(s: Store, id: Id, status: HoldStatus) {
    FindHold(s, id).Some? && FindHold(s, id).value.status == status
  }

  /** The operation names a hold. */
  predicate OnHold(op: Op) {
    op.Capture? || op.Release? || op.Expire?
  }

  /** Nothing that the rows of the operation need stands in their way. */
  predicate Acceptable(s: Store, op: Op) {
    match op
    case Post(tx, key, _) => Insertable(s, tx, key)
    case Capture(_, tx, key, _) => Insertable(s, tx, key)
    case Authorize(h) => FindHold(s, h.id) == None && FindHoldByKey(s, h.wallet, h.key) == None && Recordable(h)
    case _ => true
  }

  /** The statement an answer makes about the database and the clock at the moment it is given. A lost connection is
      nobody's answer. */
  predicate Truth(s: Store, now: Time, w: Worker, v: Verdict) {
    var op := w.op;
    match v
    case Done => true
    case Replayed =>
      (match op
       case Post(_, _, _) => OwnRow(s, op)
       case Capture(id, _, _, _) => OwnRow(s, op) && HoldIs(s, id, Captured)
       case Authorize(_) => HoldUnderKey(s, op, true)
       case _ => false)
    case Refused(refusal) =>
      match refusal
      case IdempotencyConflict => PostLike(op) && OtherRow(s, op)
      case HoldIdempotencyConflict => op.Authorize? && HoldUnderKey(s, op, false)
      case InsufficientBalance => Writes(op) && w.pc.Validating? && !Fits64(s, op, w.clock.began)
      case ConstraintViolation => Writes(op) && w.pc.Writing? && !Acceptable(s, op)
      case WalletNotFound =>
        if op.Authorize? then op.hold.wallet !in s.wallets
        else op.Capture? && FindHold(s, op.holdId).Some? && FindHold(s, op.holdId).value.wallet !in s.wallets
      case HoldNotFound => OnHold(op) && FindHold(s, HoldOf(op)) == None
      case HoldNotAuthorized =>
        && OnHold(op) && FindHold(s, HoldOf(op)).Some? && !HoldIs(s, HoldOf(op), Authorized)
        && (op.Capture? && HoldIs(s, op.holdId, Captured) ==> op.key !in s.keys)
      case HoldExpired =>
        (op.Capture? || op.Release?) && HoldIs(s, HoldOf(op), Authorized)
        && FindHold(s, HoldOf(op)).value.expiresAt <= now
      case HoldNotExpired =>
        op.Expire? && HoldIs(s, op.holdId, Authorized) && now < FindHold(s, op.holdId).value.expiresAt
      case ConnectionLost => false
  }

  // ---------------------------------------------------------------- each statement answers truly

  /** One statement: it commits, or it writes nothing and whatever it answers is true. */
  predicate TrueStep(sys: System, sys': System, i: nat)
    requires i < |sys.workers|
  {
    || (sys' == CommitWork(sys, i))
    || (&& sys'.store == sys.store && sys'.history == sys.history && |sys'.workers| == |sys.workers|
        && var w, w' := sys.workers[i], sys'.workers[i];
           && sys'.workers == sys.workers[i := w'] && w'.op == w.op && w'.pc != Finished(Done)
           && (w'.pc.Finished? ==> Truth(sys.store, sys.now, w, w'.pc.verdict)))
  }

  lemma StopTrue(sys: System, i: nat, v: Verdict)
    requires i < |sys.workers| && v != Done
    requires Truth(sys.store, sys.now, sys.workers[i], v)
    ensures TrueStep(sys, Stop(sys, i, v), i)
  {
    hide Truth, CommitWork;
  }

  lemma BeginTrue(sys: System, i: nat, pc: Pc)
    requires i < |sys.workers| && !pc.Finished?
    ensures TrueStep(sys, Begin(sys, i, pc), i)
  {
    hide Truth, CommitWork;
  }

  lemma StartTrue(sys: System, i: nat)
    requires i < |sys.workers|
    ensures TrueStep(sys, AtStart(sys, i), i)
  {
    hide SortedAccounts, FindHold, TrueStep, Stop, Begin;
    forall pc: Pc | !pc.Finished? ensures TrueStep(sys, Begin(sys, i, pc), i) {
      BeginTrue(sys, i, pc);
    }
    forall v | v != Done && Truth(sys.store, sys.now, sys.workers[i], v)
      ensures TrueStep(sys, Stop(sys, i, v), i)
    {
      StopTrue(sys, i, v);
    }
  }

  lemma LockOwnTrue(sys: System, i: nat)
    requires SystemInv(sys) && i < |sys.workers| && sys.workers[i].pc == LockOwn
    ensures TrueStep(sys, AtLockOwn(sys, i), i)
  {
    hide SystemInv, Blocked, FindHold, CommitWork, HoldsOnly, Unoccupied, WellFormed;
    WorkerAt(sys, i);
  }

  lemma LockHoldTrue(sys: System, i: nat)
    requires i < |sys.workers| && sys.workers[i].pc == LockHold && sys.workers[i].op.Capture?
    ensures TrueStep(sys, AtLockHold(sys, i), i)
  {
    hide Blocked, FindHold, SortedAccounts, TrueStep, Stop, SetWorker;
    forall v | v != Done && Truth(sys.store, sys.now, sys.workers[i], v) ensures TrueStep(sys, Stop(sys, i, v), i) {
      StopTrue(sys, i, v);
    }
    forall w: Worker | w.op == sys.workers[i].op && !w.pc.Finished? ensures TrueStep(sys, SetWorker(sys, i, w), i) {
      GotoTrue(sys, i, w);
    }
    UnmovedTrue(sys, i);
  }

  lemma UnmovedTrue(sys: System, i: nat)
    requires i < |sys.workers| && !sys.workers[i].pc.Finished?
    ensures TrueStep(sys, sys, i)
  {
    hide Truth, CommitWork;
  }

  lemma LockingTrue(sys: System, i: nat, rest: seq<Id>)
    requires i < |sys.workers| && sys.workers[i].pc == Locking(rest)
    ensures TrueStep(sys, AtLocking(sys, i, rest), i)
  {
    hide Blocked, CommitWork;
  }

  lemma GotoTrue(sys: System, i: nat, w: Worker)
    requires i < |sys.workers| && w.op == sys.workers[i].op && !w.pc.Finished?
    ensures TrueStep(sys, SetWorker(sys, i, w), i)
  {
    hide Truth, CommitWork;
  }

  lemma RecheckTrue(sys: System, i: nat)
    requires SystemInv(sys) && i < |sys.workers| && sys.workers[i].pc == Recheck
    ensures TrueStep(sys, AtRecheck(sys, i), i)
  {
    hide SystemInv, FindHoldByKey, FindHold, Guarded, TrueStep, Stop, SetWorker, HoldsOnly, Unoccupied, WellFormed,
         LocksWallets, OwnLocked;
    WorkerAt(sys, i);
    forall v | v != Done && Truth(sys.store, sys.now, sys.workers[i], v) ensures TrueStep(sys, Stop(sys, i, v), i) {
      StopTrue(sys, i, v);
    }
    forall w: Worker | w.op == sys.workers[i].op && !w.pc.Finished? ensures TrueStep(sys, SetWorker(sys, i, w), i) {
      GotoTrue(sys, i, w);
    }
  }

  lemma ValidatingTrue(sys: System, i: nat, todo: set<Id>, pick: Id)
    requires SystemInv(sys) && i < |sys.workers| && sys.workers[i].pc == Validating(todo)
    ensures TrueStep(sys, AtValidating(sys, i, todo, pick), i)
  {
    hide SystemInv, Accepts64, Projected, Guarded, CommitWork, HoldsOnly, Unoccupied, WellFormed, Ready, LocksWallets;
    WorkerAt(sys, i);
  }

  lemma RefusedInsert(s: Store, w: Worker, n: nat)
    requires HoldsOnly(s, w) && KnowsAt(s, w) && w.pc == Writing(n) && n < |Statements(w.op, w.posting)|
    requires var rows := Statements(w.op, w.posting);
             (exists u :: u in rows[n] && (Taken(s, u) || u in w.held)) || !RowAllowed(s, w.op, n)
    ensures !Acceptable(s, w.op)
  {
    hide OwnLocked, LocksWallets, Ready, Inserted, Insertable, Taken, RowAllowed, HoldIndex, HoldKeyIndex, Recordable;
    var rows := Statements(w.op, w.posting);
    assert w.posting && Solo.RefusedAt(s, w.op, true, n) by {
      forall u | u in rows[n] && u in w.held ensures InsertedBefore(rows, n, u) {
        StatementsOccupyIndexes(w.op, w.posting, n, u);
      }
      hide Statements;
    }
    if w.op.Authorize? {
      Solo.HoldInsert(s, w.op);
    } else if w.op.key in s.keys {
      if Insertable(s, w.op.tx, w.op.key) { InsertableKeyAbsent(s, w.op.tx, w.op.key); }
    } else {
      Solo.RefusedMeansNotInsertable(s, w.op, n);
    }
  }

  lemma WritingTrue(sys: System, i: nat, n: nat)
    requires SystemInv(sys) && i < |sys.workers| && sys.workers[i].pc == Writing(n)
    ensures TrueStep(sys, AtWriting(sys, i, n), i)
  {
    hide SystemInv, Blocked, CommitWork, HoldsOnly, Unoccupied, WellFormed, Ready, LocksWallets, Inserted, Statements,
         Acceptable, Taken, RowAllowed, Replaying;
    WorkerAt(sys, i);
    var w := sys.workers[i];
    var rows := Statements(w.op, w.posting);
    if n < |rows| && ((exists u :: u in rows[n] && (Taken(sys.store, u) || u in w.held)) ||
                      !RowAllowed(sys.store, w.op, n)) {
      RefusedInsert(sys.store, w, n);
    }
  }

  lemma RereadTrue(sys: System, i: nat)
    requires KeyRaces.RereadsHaveLost(sys) && i < |sys.workers| && sys.workers[i].pc == Reread
    ensures TrueStep(sys, AtReread(sys, i), i)
  {
    hide CommitWork;
    assert KeyRaces.KeyLost(sys.store, sys.workers[i].op);
  }

  lemma UpdatingTrue(sys: System, i: nat)
    requires SystemInv(sys) && i < |sys.workers| && sys.workers[i].pc == Updating
    ensures TrueStep(sys, AtUpdating(sys, i), i)
  {
    hide SystemInv, Blocked, FindHold, CommitWork, HoldsOnly, Unoccupied, WellFormed;
    WorkerAt(sys, i);
  }

  lemma LockHoldIsCapture(sys: System, i: nat)
    requires SystemInv(sys) && i < |sys.workers| && sys.workers[i].pc == LockHold
    ensures sys.workers[i].op.Capture?
  {
    hide SystemInv, HoldsOnly, Unoccupied, WellFormed, OwnLocked;
    WorkerAt(sys, i);
  }

  /** A recorded key is answered at once: neither at its start nor under its locks does an operation go on past the row
      or the hold that its key already has, but for a capture whose own row is there. */
  lemma {:induction false} RecordedKeyIsAnswered(sys: System, i: nat, pick: Id)
    requires i < |sys.workers| && (sys.workers[i].pc == Start || sys.workers[i].pc == Recheck)
    ensures var op, pc := sys.workers[i].op, AdvanceWorker(sys, i, pick).workers[i].pc;
            && (op.Post? && OwnRow(sys.store, op) ==> pc == Finished(Replayed))
            && (op.Post? && OtherRow(sys.store, op) ==> pc == Finished(Refused(IdempotencyConflict)))
            && (sys.workers[i].pc == Recheck ==>
                  && (op.Capture? && OtherRow(sys.store, op) ==> pc == Finished(Refused(IdempotencyConflict)))
                  && (op.Authorize? && HoldUnderKey(sys.store, op, true) ==> pc == Finished(Replayed))
                  && (op.Authorize? && HoldUnderKey(sys.store, op, false) ==>
                        pc == Finished(Refused(HoldIdempotencyConflict))))
  {
    hide SortedAccounts, FindHold, FindHoldByKey, Guarded;
  }

  /** A repeated capture of a captured hold is answered as its key decides, once the hold row is free. */
  lemma {:induction false} RepeatedCaptureIsAnswered(sys: System, i: nat, pick: Id)
    requires i < |sys.workers| && sys.workers[i].pc == LockHold && sys.workers[i].op.Capture?
    requires HoldIs(sys.store, sys.workers[i].op.holdId, Captured)
    requires !Blocked(sys, i, {HoldRow(sys.workers[i].op.holdId)})
    ensures var op, pc := sys.workers[i].op, AdvanceWorker(sys, i, pick).workers[i].pc;
            pc == Finished(if OwnRow(sys.store, op) then Replayed
                           else Refused(if OtherRow(sys.store, op) then IdempotencyConflict else HoldNotAuthorized))
  {
    hide Blocked, FindHold;
  }

  /** Whatever statement comes next, its answer is true. */
  lemma AdvanceTrue(sys: System, i: nat, pick: Id)
    requires SystemInv(sys) && KeyRaces.RereadsHaveLost(sys) && i < |sys.workers| && !sys.workers[i].pc.Finished?
    ensures TrueStep(sys, AdvanceWorker(sys, i, pick), i)
  {
    hide SystemInv, KeyRaces.RereadsHaveLost, TrueStep, AtStart, AtLockOwn, AtLockHold, AtLocking, AtRecheck,
         AtValidating, AtWriting, AtReread, AtUpdating;
    match sys.workers[i].pc {
      case Start => StartTrue(sys, i);
      case LockOwn => LockOwnTrue(sys, i);
      case LockHold => LockHoldIsCapture(sys, i); LockHoldTrue(sys, i);
      case Locking(rest) => LockingTrue(sys, i, rest);
      case Recheck => RecheckTrue(sys, i);
      case Validating(todo) => ValidatingTrue(sys, i, todo, pick);
      case Writing(n) => WritingTrue(sys, i, n);
      case Reread => RereadTrue(sys, i);
      case Updating => UpdatingTrue(sys, i);
    }
  }

  // ---------------------------------------------------------------- over whole runs

  predicate AnswersAt(sys: System, schedule: seq<Move>, n: nat, i: nat)
    requires n < |schedule| && i < |sys.workers|
  {
    var before, after := Run(sys, schedule[..n]), Run(sys, schedule[..n + 1]);
    && |before.workers| == |after.workers| == |sys.workers|
    && !before.workers[i].pc.Finished? && after.workers[i].pc.Finished?
  }

  lemma CrashOrTick(sys: System, m: Move, i: nat)
    requires i < |sys.workers| && !m.Advance?
    ensures |Step(sys, m).workers| == |sys.workers|
    ensures Step(sys, m).workers[i].op == sys.workers[i].op
    ensures !sys.workers[i].pc.Finished? && Step(sys, m).workers[i].pc.Finished? ==>
              m == Crash(i) && Step(sys, m).workers[i].pc == Finished(Refused(ConnectionLost))
    ensures sys.workers[i].pc.Finished? ==> Step(sys, m).workers[i] == sys.workers[i]
  {
  }

  /** An answer, once given, is final. */
  lemma AnswerStays(sys: System, m: Move, i: nat)
    requires SystemInv(sys) && KeyRaces.RereadsHaveLost(sys) && i < |sys.workers|
    ensures |Step(sys, m).workers| == |sys.workers| && Step(sys, m).workers[i].op == sys.workers[i].op
    ensures sys.workers[i].pc.Finished? ==> Step(sys, m).workers[i].pc == sys.workers[i].pc
  {
    hide SystemInv, AdvanceWorker, KeyRaces.RereadsHaveLost, CommitEffect;
    match m {
      case Advance(j, pick) =>
        if j < |sys.workers| {
          if sys.workers[j].pc.Finished? { NothingMore(sys, j, pick); } else { AdvanceTrue(sys, j, pick); }
        }
      case _ => CrashOrTick(sys, m, i);
    }
  }

  lemma NothingMore(sys: System, j: nat, pick: Id)
    requires j < |sys.workers| && sys.workers[j].pc.Finished?
    ensures AdvanceWorker(sys, j, pick) == sys
  {
  }

  /** Every answer was true when it was given: a worker that has finished did so by some move of the run, and unless
      that was the loss of its connection, or its commit, what it answered held of the database it found. */
  lemma {:induction false} AnswersAreTrue(sys: System, schedule: seq<Move>, i: nat) returns (n: nat)
    requires Initial(sys) && LedgerInv(sys.store) && i < |sys.workers|
    requires |Run(sys, schedule).workers| == |sys.workers| && Run(sys, schedule).workers[i].pc.Finished?
    ensures n < |schedule| && AnswersAt(sys, schedule, n, i)
    ensures var before, after := Run(sys, schedule[..n]), Run(sys, schedule[..n + 1]);
            var verdict := Run(sys, schedule).workers[i].pc.verdict;
            && before.workers[i].op == sys.workers[i].op && after.workers[i].pc == Finished(verdict)
            && (schedule[n].Crash? <==> verdict == Refused(ConnectionLost))
            && (!schedule[n].Crash? ==> Truth(before.store, before.now, before.workers[i], verdict))
            && (verdict == Done ==> after == CommitWork(before, i))
  {
    hide Initial, SystemInv, LedgerInv, Step, KeyRaces.RereadsHaveLost, Truth, CommitWork;
    n := 0;
    if schedule == [] {
      NobodyFinished(sys, i);
      assert false;
    } else {
      var last := |schedule| - 1;
      var mid := Run(sys, schedule[..last]);
      SoundFromLedger(sys.store);
      RunKeeps(sys, schedule[..last]);
      KeyRaces.RunKeepsLost(sys, schedule[..last]);
      SameWorkers(sys, schedule[..last], i);
      AnswerStays(mid, schedule[last], i);
      if mid.workers[i].pc.Finished? {
        n := AnswersAreTrue(sys, schedule[..last], i);
        assert schedule[..last][..n] == schedule[..n] && schedule[..last][..n + 1] == schedule[..n + 1];
      } else {
        n := last;
        assert schedule[..last + 1] == schedule;
        LastAnswer(mid, schedule[last], i);
      }
    }
  }

  lemma NobodyFinished(sys: System, i: nat)
    requires Initial(sys) && i < |sys.workers|
    ensures !sys.workers[i].pc.Finished?
  {
  }

  lemma {:induction false} SameWorkers(sys: System, schedule: seq<Move>, i: nat)
    requires Initial(sys) && LedgerInv(sys.store) && i < |sys.workers|
    ensures |Run(sys, schedule).workers| == |sys.workers| && Run(sys, schedule).workers[i].op == sys.workers[i].op
  {
    hide Initial, SoundRows, Run, Progress.HoldFrom;
    SoundFromLedger(sys.store);
    Progress.RunKeepsRequests(sys, schedule);
  }

  lemma LastAnswer(sys: System, m: Move, i: nat)
    requires SystemInv(sys) && KeyRaces.RereadsHaveLost(sys) && i < |sys.workers| && !sys.workers[i].pc.Finished?
    requires |Step(sys, m).workers| == |sys.workers| && Step(sys, m).workers[i].pc.Finished?
    ensures var w := sys.workers[i];
            var verdict := Step(sys, m).workers[i].pc.verdict;
            && (m.Crash? <==> verdict == Refused(ConnectionLost))
            && (!m.Crash? ==> Truth(sys.store, sys.now, w, verdict))
            && (verdict == Done ==> Step(sys, m) == CommitWork(sys, i))
  {
    hide SystemInv, AdvanceWorker, KeyRaces.RereadsHaveLost, CommitEffect;
    match m {
      case Advance(j, pick) =>
        if j < |sys.workers| {
          if sys.workers[j].pc.Finished? { NothingMore(sys, j, pick); } else { AdvanceTrue(sys, j, pick); }
        }
      case _ => CrashOrTick(sys, m, i);
    }
  }

  // ---------------------------------------------------------------- what is reported as recorded stays

  /** What the database holds for an operation that reported success, by its own commit or as a replay. */
  predicate Recorded(s: Store, op: Op) {
    match op
    case Post(tx, _, _) => OwnRow(s, op) && Logged(s.log, tx.id)
    case Capture(id, tx, _, _) => OwnRow(s, op) && Logged(s.log, tx.id) && HoldIs(s, id, Captured)
    case Authorize(_) => HoldUnderKey(s, op, true)
    case Release(id) => HoldIs(s, id, Released)
    case Expire(id) => HoldIs(s, id, Expired)
  }

  /** What an answer says that time cannot make false. */
  predicate Lasting(s: Store, op: Op, v: Verdict) {
    match v
    case Done => Recorded(s, op)
    case Replayed => !op.Release? && !op.Expire? && Recorded(s, op)
    case Refused(IdempotencyConflict) => PostLike(op) && OtherRow(s, op)
    case Refused(HoldIdempotencyConflict) => op.Authorize? && HoldUnderKey(s, op, false)
    case Refused(HoldNotAuthorized) =>
      OnHold(op) && FindHold(s, HoldOf(op)).Some? && !HoldIs(s, HoldOf(op), Authorized)
    case _ => true
  }

  lemma KeyedHoldStays(s: Store, s': Store, wallet: Id, key: string)
    requires Grows(s, s') && FindHoldByKey(s, wallet, key).Some?
    ensures FindHoldByKey(s', wallet, key).Some?
    ensures SameHold(FindHoldByKey(s, wallet, key).value, FindHoldByKey(s', wallet, key).value)
  {
    hide HoldKeyIndex;
    var i := HoldKeyIndex(s.holds, wallet, key);
    forall k | 0 <= k <= i ensures SameHold(s.holds[k], s'.holds[k]) { }
    HoldKeyIndexIs(s'.holds, wallet, key, i);
  }

  lemma LoggedStays(s: Store, s': Store, id: Id)
    requires Grows(s, s') && Logged(s.log, id)
    ensures Logged(s'.log, id)
  {
    var i :| 0 <= i < |s.log| && s.log[i].id == id;
    assert s'.log[i] == s.log[i];
  }

  lemma RecordedStays(s: Store, s': Store, op: Op)
    requires Grows(s, s') && Recorded(s, op)
    ensures Recorded(s', op)
  {
    hide FindHold, FindHoldByKey, Logged;
    KeysStay(s, s');
    hide Grows;
    match op {
      case Post(tx, _, _) => LoggedStays(s, s', tx.id);
      case Capture(id, tx, _, _) => LoggedStays(s, s', tx.id); TerminalStays(s, s', id);
      case Authorize(h) => KeyedHoldStays(s, s', h.wallet, h.key);
      case Release(id) => TerminalStays(s, s', id);
      case Expire(id) => TerminalStays(s, s', id);
    }
  }

  lemma KeysStay(s: Store, s': Store)
    requires Grows(s, s')
    ensures forall key :: key in s.keys ==> key in s'.keys && s'.keys[key] == s.keys[key]
  {
  }

  lemma LastingStays(s: Store, s': Store, op: Op, v: Verdict)
    requires Grows(s, s') && Lasting(s, op, v)
    ensures Lasting(s', op, v)
  {
    hide Grows, FindHold, FindHoldByKey, Recorded;
    KeysStay(s, s');
    match v {
      case Done => RecordedStays(s, s', op);
      case Replayed => RecordedStays(s, s', op);
      case Refused(HoldIdempotencyConflict) => KeyedHoldStays(s, s', op.hold.wallet, op.hold.key);
      case Refused(HoldNotAuthorized) => TerminalStays(s, s', HoldOf(op));
      case _ =>
    }
  }

  lemma TruthLasts(s: Store, now: Time, w: Worker, v: Verdict)
    requires LedgerInv(s) && Truth(s, now, w, v) && v != Done
    ensures Lasting(s, w.op, v)
  {
    hide LedgerInv, FindHold, FindHoldByKey, Acceptable, Fits64;
    var op := w.op;
    if PostLike(op) && op.key in s.keys { KeyRaces.KeysAreLogged(s, op.key); }
  }

  lemma CommitRecords(sys: System, i: nat)
    requires SystemInv(sys) && LedgerInv(sys.store) && i < |sys.workers| && CommitReady(sys.store, sys.workers[i])
    requires LedgerInv(CommitWork(sys, i).store)
    ensures Recorded(CommitWork(sys, i).store, sys.workers[i].op)
  {
    hide SystemInv, LedgerInv, CommitEffect, CommitReady, Unoccupied, HoldsOnly, WellFormed, KnowsAt, FindHold,
         FindHoldByKey, OutcomeWith;
    var s, w := sys.store, sys.workers[i];
    WorkerAt(sys, i);
    CommitIsPassed(s, w);
    match w.op {
      case Post(_, key, _) =>
        PostRecordsKey(s, w.op, w.clock);
        KeyRaces.KeysAreLogged(CommitWork(sys, i).store, key);
      case Capture(id, _, key, _) =>
        PostRecordsKey(s, w.op, w.clock);
        KeyRaces.KeysAreLogged(CommitWork(sys, i).store, key);
        EndingEnds(s, w.op, w.clock, id);
      case Authorize(h) => AuthorizeRecords(s, h, w.clock);
      case Release(id) => EndingEnds(s, w.op, w.clock, id);
      case Expire(id) => EndingEnds(s, w.op, w.clock, id);
    }
  }

  lemma AuthorizeRecords(s: Store, h: Hold, c: Clock)
    requires OutcomeWith(s, Authorize(h), c, true).verdict == Done
    ensures HoldUnderKey(OutcomeWith(s, Authorize(h), c, true).store, Authorize(h), true)
  {
    hide FindHold, HoldKeyIndex;
    FindByKeyAfterAppend(s, h, h.wallet, h.key);
  }

  lemma {:induction false} RunGrows(sys: System, schedule: seq<Move>, n: nat)
    requires Initial(sys) && LedgerInv(sys.store) && n <= |schedule|
    ensures Grows(Run(sys, schedule[..n]).store, Run(sys, schedule).store)
  {
    hide Initial, SystemInv, LedgerInv, Step, Grows;
    if n == |schedule| {
      assert schedule[..n] == schedule;
      GrowsReflexive(Run(sys, schedule).store);
    } else {
      var before := schedule[..|schedule| - 1];
      assert before[..n] == schedule[..n];
      RunGrows(sys, before, n);
      SoundFromLedger(sys.store);
      RunKeeps(sys, before);
      KeyRaces.StepGrows(Run(sys, before), schedule[|schedule| - 1]);
      GrowsTransitive(Run(sys, schedule[..n]).store, Run(sys, before).store, Run(sys, schedule).store);
    }
  }

  lemma DoneWasReady(sys: System, m: Move, i: nat)
    requires SystemInv(sys) && i < |sys.workers| && !sys.workers[i].pc.Finished?
    requires |Step(sys, m).workers| == |sys.workers| && Step(sys, m).workers[i].pc == Finished(Done)
    requires KeyRaces.RereadsHaveLost(sys)
    ensures CommitReady(sys.store, sys.workers[i])
  {
    hide SystemInv, KeyRaces.RereadsHaveLost, CommitEffect, Statements, Taken, RowAllowed, Blocked, FindHold, CheckKey,
         SortedAccounts, FindHoldByKey, Guarded, Accepts64, Projected, WellFormed, Unoccupied, HoldsOnly, Ready,
         LocksWallets, Inserted, Replaying;
    KeyRaces.RereadsArePosts(sys, i);
    WorkerAt(sys, i);
    if m.Advance? && m.worker < |sys.workers| {
      if m.worker != i { KeyRaces.OthersStay(sys, m.worker, m.pick); }
      match sys.workers[i].pc {
        case Writing(n) => InsertedAtMost(sys.store, sys.workers[i], n);
        case _ =>
      }
    }
  }

  /** What an answer reports as recorded is there at every later point of the run: a replayed post or capture has its
      own row under its key, a conflict another row, a capture, release or expiration that reported success has ended
      its hold, and a release or an expiration never reports a replay. */
  lemma {:induction false} AnswersLast(sys: System, schedule: seq<Move>, i: nat)
    requires Initial(sys) && LedgerInv(sys.store) && i < |sys.workers|
    requires |Run(sys, schedule).workers| == |sys.workers| && Run(sys, schedule).workers[i].pc.Finished?
    ensures Lasting(Run(sys, schedule).store, sys.workers[i].op, Run(sys, schedule).workers[i].pc.verdict)
  {
    hide Initial, SystemInv, LedgerInv, Truth, Lasting, Recorded, CommitWork, Grows, Run, KeyRaces.RereadsHaveLost;
    var n := AnswersAreTrue(sys, schedule, i);
    var op, verdict := sys.workers[i].op, Run(sys, schedule).workers[i].pc.verdict;
    var before := Run(sys, schedule[..n]);
    LastMove(sys, schedule, n);
    RunKeepsLedger(sys, schedule[..n]);
    RunKeepsLedger(sys, schedule[..n + 1]);
    RunGrows(sys, schedule, n);
    RunGrows(sys, schedule, n + 1);
    SoundFromLedger(sys.store);
    RunKeeps(sys, schedule[..n]);
    KeyRaces.RunKeepsLost(sys, schedule[..n]);
    SameWorkers(sys, schedule[..n], i);
    if verdict == Done {
      DoneWasReady(before, schedule[n], i);
      CommitRecords(before, i);
      DoneLasts(CommitWork(before, i).store, op);
      LastingStays(Run(sys, schedule[..n + 1]).store, Run(sys, schedule).store, op, verdict);
    } else if schedule[n].Crash? {
      LostConnectionLasts(Run(sys, schedule).store, op);
    } else {
      TruthLasts(before.store, before.now, before.workers[i], verdict);
      LastingStays(before.store, Run(sys, schedule).store, op, verdict);
    }
  }

  lemma LastMove(sys: System, schedule: seq<Move>, n: nat)
    requires n < |schedule|
    ensures Run(sys, schedule[..n + 1]) == Step(Run(sys, schedule[..n]), schedule[n])
  {
    hide Step;
    assert schedule[..n + 1][..n] == schedule[..n];
  }

  lemma DoneLasts(s: Store, op: Op)
    requires Recorded(s, op)
    ensures Lasting(s, op, Done)
  {
  }

  lemma LostConnectionLasts(s: Store, op: Op)
    ensures Lasting(s, op, Refused(ConnectionLost))
  {
  }

  // ---------------------------------------------------------------- success is the history

  /** The commits that workers reported as done. */
  function Reported(workers: seq<Worker>): multiset<Commit> {
    if workers == [] then multiset{}
    else Reported(workers[..|workers| - 1]) + Report(workers[|workers| - 1])
  }

  function Report(w: Worker): multiset<Commit> {
    if w.pc == Finished(Done) then multiset{Commit(w.op, w.clock)} else multiset{}
  }

  lemma {:induction false} ReportedUpdate(workers: seq<Worker>, i: nat, w: Worker)
    requires i < |workers| && Report(workers[i]) == multiset{}
    ensures Reported(workers[i := w]) == Reported(workers) + Report(w)
  {
    hide Report;
    var n := |workers| - 1;
    if i == n {
      assert workers[i := w][..n] == workers[..n];
    } else {
      assert workers[i := w][..n] == workers[..n][i := w];
      ReportedUpdate(workers[..n], i, w);
    }
  }

  lemma {:induction false} NothingReported(workers: seq<Worker>)
    requires forall i :: 0 <= i < |workers| ==> workers[i].pc == Start
    ensures Reported(workers) == multiset{}
  {
    if workers != [] { NothingReported(workers[..|workers| - 1]); }
  }

  lemma StepReports(sys: System, m: Move)
    requires SystemInv(sys) && KeyRaces.RereadsHaveLost(sys) && multiset(sys.history) == Reported(sys.workers)
    ensures multiset(Step(sys, m).history) == Reported(Step(sys, m).workers)
  {
    hide SystemInv, KeyRaces.RereadsHaveLost, AdvanceWorker, Truth, CommitEffect, Reported;
    match m {
      case Advance(i, pick) =>
        if i < |sys.workers| {
          if sys.workers[i].pc.Finished? {
            NothingMore(sys, i, pick);
          } else {
            AdvanceTrue(sys, i, pick);
            ReportedUpdate(sys.workers, i, Step(sys, m).workers[i]);
          }
        }
      case Crash(i) =>
        if i < |sys.workers| && !sys.workers[i].pc.Finished? {
          ReportedUpdate(sys.workers, i, Step(sys, m).workers[i]);
        }
      case Tick(_) =>
    }
  }

  /** The history is exactly what the workers that answered Done report, each commit once: no success without a
      commit, and no commit without a success. */
  lemma {:induction false} DoneIsHistory(sys: System, schedule: seq<Move>)
    requires Initial(sys) && LedgerInv(sys.store)
    ensures multiset(Run(sys, schedule).history) == Reported(Run(sys, schedule).workers)
  {
    hide SystemInv, LedgerInv, Step, Reported, KeyRaces.RereadsHaveLost;
    if schedule == [] {
      NothingReported(sys.workers);
    } else {
      var before := schedule[..|schedule| - 1];
      SoundFromLedger(sys.store);
      DoneIsHistory(sys, before);
      RunKeeps(sys, before);
      KeyRaces.RunKeepsLost(sys, before);
      StepReports(Run(sys, before), schedule[|schedule| - 1]);
    }
  }
}
