/** Every interleaving keeps the invariant, and its committed history replays serially. */
module Interleaving {
  import opened Prelude
  import opened Transactions
  import opened Ledger
  import opened Balances
  import opened Workers
  import opened Interference
  import opened Safety

  // ---------------------------------------------------------------- installing one worker's new state

  lemma InstallKeeps(sys: System, i: nat, w: Worker)
    requires SystemInv(sys) && i < |sys.workers| && WorkerInv(sys.store, sys.now, w)
    requires forall j :: 0 <= j < |sys.workers| && j != i ==> w.held !! sys.workers[j].held
    ensures SystemInv(SetWorker(sys, i, w))
  {
    hide WorkerInv, SoundRows;
  }

  lemma NotBlockedDisjoint(sys: System, i: nat, us: set<Resource>)
    requires SystemInv(sys) && i < |sys.workers| && !Blocked(sys, i, us)
    ensures forall j :: 0 <= j < |sys.workers| && j != i ==> sys.workers[i].held + us !! sys.workers[j].held
  {
    hide WorkerInv, SoundRows;
    forall j | 0 <= j < |sys.workers| && j != i ensures us !! sys.workers[j].held {
      forall u | u in us ensures u !in sys.workers[j].held {
        assert !HeldByOther(sys, i, u);
      }
    }
  }

  lemma OthersDisjoint(sys: System, i: nat)
    requires SystemInv(sys) && i < |sys.workers|
    ensures forall j :: 0 <= j < |sys.workers| && j != i ==> sys.workers[i].held !! sys.workers[j].held
  {
    hide WorkerInv, SoundRows;
  }

  lemma WorkerAt(sys: System, i: nat)
    requires SystemInv(sys) && i < |sys.workers|
    ensures WorkerInv(sys.store, sys.now, sys.workers[i])
  {
    hide WorkerInv, SoundRows, Exclusive;
  }

  lemma StopKeeps(sys: System, i: nat, verdict: Verdict)
    requires SystemInv(sys) && i < |sys.workers|
    ensures SystemInv(Stop(sys, i, verdict))
  {
    hide SystemInv, SetWorker, WellFormed;
    WorkerAt(sys, i);
    InstallKeeps(sys, i, sys.workers[i].(pc := Finished(verdict), held := {}));
  }

  /** A step that keeps what is held and only moves the worker on, before any insert. */
  lemma MoveKeeps(sys: System, i: nat, w: Worker)
    requires SystemInv(sys) && i < |sys.workers|
    requires w.op == sys.workers[i].op && w.held == sys.workers[i].held && InsertsDone(sys.workers[i]) == 0
    requires w.posting == sys.workers[i].posting || w.op.Capture?
    requires w.pc != Start && w.clock.began <= sys.now && KnowsAt(sys.store, w)
    ensures SystemInv(SetWorker(sys, i, w))
  {
    hide SystemInv, SetWorker, KnowsAt, Unoccupied, WellFormed;
    WorkerAt(sys, i);
    OthersDisjoint(sys, i);
    HoldsOnlyGrows(sys.store, sys.workers[i], w, {});
    InstallKeeps(sys, i, w);
  }

  /** Acquired rows extend what is held; inserts done before stay done. */
  lemma HoldsOnlyGrows(s: Store, w: Worker, w': Worker, us: set<Resource>)
    requires HoldsOnly(s, w) && w'.op == w.op && w'.held == w.held + us && InsertsDone(w) <= InsertsDone(w')
    requires w'.posting == w.posting || InsertsDone(w) == 0
    requires forall u :: u in us ==>
      match u
      case WalletRow(a) => a in s.wallets.Values
      case HoldRow(id) => w.op.Capture? && w.op.holdId == id && OwnLocked(s, w)
      case _ => InsertedBefore(Statements(w.op, w'.posting), InsertsDone(w'), u)
    ensures HoldsOnly(s, w')
  {
    hide Statements, OwnAccount;
  }

  /** A step that also acquires resources nobody else holds. */
  lemma AcquireKeeps(sys: System, i: nat, us: set<Resource>, w: Worker)
    requires SystemInv(sys) && i < |sys.workers| && !Blocked(sys, i, us)
    requires w.op == sys.workers[i].op && w.held == sys.workers[i].held + us
    requires w.pc != Start && w.clock.began <= sys.now
    requires Unoccupied(sys.store, us) && HoldsOnly(sys.store, w) && KnowsAt(sys.store, w)
    ensures SystemInv(SetWorker(sys, i, w))
  {
    hide SystemInv, SetWorker, KnowsAt, Taken, Blocked, HoldsOnly, WellFormed;
    WorkerAt(sys, i);
    NotBlockedDisjoint(sys, i, us);
    InstallKeeps(sys, i, w);
  }

  // ---------------------------------------------------------------- each statement

  lemma BeginKeeps(sys: System, i: nat, pc: Pc)
    requires SystemInv(sys) && i < |sys.workers| && sys.workers[i].pc == Start
    requires pc != Start && KnowsAt(sys.store, sys.workers[i].(pc := pc, clock := Clock(sys.now, sys.now)))
    ensures SystemInv(Begin(sys, i, pc))
  {
    hide SystemInv, SetWorker, KnowsAt;
    MoveKeeps(sys, i, sys.workers[i].(pc := pc, clock := Clock(sys.now, sys.now)));
  }

  lemma FirstLockOrder(s: Store, w: Worker)
    requires PostLike(w.op) && OwnRowOnly(s, w)
    ensures LocksWallets(s, w, SortedAccounts(w.op.tx.entry.postings))
    ensures LockOrder(s, w, SortedAccounts(w.op.tx.entry.postings))
  {
    hide SortedAccounts;
    var r := SortedAccounts(w.op.tx.entry.postings);
  }

  lemma StartKeeps(sys: System, i: nat)
    requires SystemInv(sys) && i < |sys.workers| && sys.workers[i].pc == Start
    ensures SystemInv(AtStart(sys, i))
  {
    hide SystemInv, Begin, Stop, HoldIndex, Unoccupied, HoldsOnly, LocksWallets, LockOrder, WellFormed,
         SortedAccounts, CheckKey, Inserted;
    WorkerAt(sys, i);
    forall v ensures SystemInv(Stop(sys, i, v)) { StopKeeps(sys, i, v); }
    var w := sys.workers[i];
    var s := sys.store;
    match w.op {
      case Post(tx, key, hash) =>
        if CheckKey(s, tx, key, hash) == Absent {
          var pc := Locking(SortedAccounts(tx.entry.postings));
          FirstLockOrder(s, w.(pc := pc, clock := Clock(sys.now, sys.now)));
          BeginKeeps(sys, i, pc);
        }
      case Authorize(h) =>
        if h.wallet in s.wallets { BeginKeeps(sys, i, LockOwn); }
      case Capture(id, _, _, _) =>
        if FindHold(s, id).Some? && FindHold(s, id).value.wallet in s.wallets { BeginKeeps(sys, i, LockOwn); }
      case Release(id) =>
        if FindHold(s, id).Some? && sys.now < FindHold(s, id).value.expiresAt { BeginKeeps(sys, i, Updating); }
      case Expire(id) =>
        if FindHold(s, id).Some? && FindHold(s, id).value.expiresAt <= sys.now { BeginKeeps(sys, i, Updating); }
    }
  }

  lemma OwnAccountIsWallet(s: Store, op: Op)
    requires OwnAccount(s, op).Some?
    ensures OwnAccount(s, op).value in s.wallets.Values
    ensures op.Authorize? ==> Guarded(s, op) == {OwnAccount(s, op).value}
    ensures op.Authorize? || op.Capture?
  {
    hide HoldIndex;
  }

  lemma LockOwnKeeps(sys: System, i: nat)
    requires SystemInv(sys) && i < |sys.workers| && sys.workers[i].pc == LockOwn
    ensures SystemInv(AtLockOwn(sys, i))
  {
    hide SystemInv, HoldIndex, Blocked, SetWorker, Stop, OwnAccount, Guarded, FindHold, Inserted, HoldsOnly, WellFormed;
    WorkerAt(sys, i);
    var w := sys.workers[i];
    OwnAccountIsWallet(sys.store, w.op);
    var us := {WalletRow(OwnAccount(sys.store, w.op).value)};
    if !Blocked(sys, i, us) {
      var w' := w.(pc := if w.op.Capture? then LockHold else Recheck, held := w.held + us);
      HoldsOnlyGrows(sys.store, w, w', us);
      AcquireKeeps(sys, i, us, w');
    }
  }

  lemma LockHoldKeeps(sys: System, i: nat)
    requires SystemInv(sys) && i < |sys.workers| && sys.workers[i].pc == LockHold
    ensures SystemInv(AtLockHold(sys, i))
  {
    hide SystemInv, HoldIndex, Blocked, SetWorker, Stop, CheckKey, LocksWallets, HoldsOnly, WellFormed, LockOrder,
         OwnAccount, Guarded, Inserted, SortedAccounts, FindHold;
    WorkerAt(sys, i);
    forall v ensures SystemInv(Stop(sys, i, v)) { StopKeeps(sys, i, v); }
    var w := sys.workers[i];
    var id := w.op.holdId;
    if !Blocked(sys, i, {HoldRow(id)}) && FindHold(sys.store, id).Some? {
      var h := FindHold(sys.store, id).value;
      if h.status == Authorized && sys.now < h.expiresAt {
        var w' := w.(pc := Locking(SortedAccounts(w.op.tx.entry.postings)), clock := w.clock.(checked := sys.now),
                     held := w.held + {HoldRow(id)});
        FirstLockOrder(sys.store, w');
        HoldsOnlyGrows(sys.store, w, w', {HoldRow(id)});
        AcquireKeeps(sys, i, {HoldRow(id)}, w');
      }
    }
  }

  lemma LocksShrink(s: Store, w: Worker, w': Worker, rest: seq<Id>)
    requires rest != [] && LocksWallets(s, w, rest) && LockOrder(s, w, rest) && w'.op == w.op
    requires (w'.held == w.held && rest[0] !in s.wallets.Values) || w'.held == w.held + {WalletRow(rest[0])}
    ensures LocksWallets(s, w', rest[1..]) && LockOrder(s, w', rest[1..])
  {
    var tail := rest[1..];
    assert rest == [rest[0]] + tail;
    forall b | b in tail ensures b in rest && rest[0] < b { FirstIsLeast(rest, b); }
    forall a | a in Guarded(s, w'.op) && a !in tail ensures WalletRow(a) in w'.held {
      assert Guarded(s, w'.op) == Guarded(s, w.op);
      assert a in rest || WalletRow(a) in w.held;
    }
    assert StrictlyIncreasing(tail);
  }

  lemma ReadyGrows(s: Store, w: Worker, w': Worker)
    requires Ready(s, w) && w'.op == w.op && w.held <= w'.held && w'.clock == w.clock
    ensures Ready(s, w')
  {
    hide FindHold, OwnAccount;
  }

  lemma LocksSame(s: Store, w: Worker, w': Worker, rest: seq<Id>)
    requires LocksWallets(s, w, rest) && w'.op == w.op && w.held <= w'.held
    ensures LocksWallets(s, w', rest)
  {
  }

  lemma LockingKeeps(sys: System, i: nat, rest: seq<Id>)
    requires SystemInv(sys) && i < |sys.workers| && sys.workers[i].pc == Locking(rest)
    ensures SystemInv(AtLocking(sys, i, rest))
  {
    hide SystemInv, Unoccupied, HoldsOnly, Blocked, SetWorker, WellFormed, Ready, LocksWallets, Inserted, LockOrder;
    WorkerAt(sys, i);
    var w := sys.workers[i];
    if rest == [] {
      var w' := w.(pc := Recheck);
      ReadyGrows(sys.store, w, w');
      LocksSame(sys.store, w, w', []);
      LockOrderPosts(sys.store, w, rest);
      MoveKeeps(sys, i, w');
    } else if rest[0] !in sys.store.wallets.Values {
      var w' := w.(pc := Locking(rest[1..]));
      ReadyGrows(sys.store, w, w');
      LocksShrink(sys.store, w, w', rest);
      MoveKeeps(sys, i, w');
    } else if !Blocked(sys, i, {WalletRow(rest[0])}) {
      var us := {WalletRow(rest[0])};
      var w' := w.(pc := Locking(rest[1..]), held := w.held + us);
      ReadyGrows(sys.store, w, w');
      LocksShrink(sys.store, w, w', rest);
      HoldsOnlyGrows(sys.store, w, w', us);
      WalletRowFree(sys.store, rest[0]);
      AcquireKeeps(sys, i, us, w');
    }
  }

  lemma LockOrderPosts(s: Store, w: Worker, rest: seq<Id>)
    requires LockOrder(s, w, rest)
    ensures PostLike(w.op)
  {
  }

  lemma WalletRowFree(s: Store, a: Id)
    ensures Unoccupied(s, {WalletRow(a)})
  {
  }

  lemma RecheckKeeps(sys: System, i: nat)
    requires SystemInv(sys) && i < |sys.workers| && sys.workers[i].pc == Recheck
    ensures SystemInv(AtRecheck(sys, i))
  {
    hide SystemInv, Unoccupied, HoldsOnly, Stop, SetWorker, Ready, LocksWallets, CheckKey, FindHoldByKey, Guarded,
         WellFormed;
    WorkerAt(sys, i);
    forall v ensures SystemInv(Stop(sys, i, v)) { StopKeeps(sys, i, v); }
    var w := sys.workers[i];
    var w1 := w.(pc := Validating(Guarded(sys.store, w.op)));
    ReadyGrows(sys.store, w, w1);
    LocksSame(sys.store, w, w1, []);
    MoveKeeps(sys, i, w1);
    if w.op.Capture? && CheckKey(sys.store, w.op.tx, w.op.key, w.op.hash) == Replay {
      var w2 := w.(pc := Writing(0), posting := false);
      ReadyGrows(sys.store, w, w2);
      MoveKeeps(sys, i, w2);
    }
  }

  lemma ValidatingKeeps(sys: System, i: nat, todo: set<Id>, pick: Id)
    requires SystemInv(sys) && i < |sys.workers| && sys.workers[i].pc == Validating(todo)
    ensures SystemInv(AtValidating(sys, i, todo, pick))
  {
    hide SystemInv, Unoccupied, HoldsOnly, Stop, SetWorker, Ready, LocksWallets, Accepts64, Projected, Guarded,
         WellFormed, Statements;
    WorkerAt(sys, i);
    StopKeeps(sys, i, Refused(InsufficientBalance));
    var w := sys.workers[i];
    forall pc, exact | pc == Writing(0) || pc == Validating(todo - {pick})
      ensures SystemInv(SetWorker(sys, i, w.(pc := pc, exact := exact)))
    {
      var w' := w.(pc := pc, exact := exact);
      ReadyGrows(sys.store, w, w');
      LocksSame(sys.store, w, w', []);
      MoveKeeps(sys, i, w');
    }
  }

  lemma WritingKeeps(sys: System, i: nat, n: nat)
    requires SystemInv(sys) && i < |sys.workers| && sys.workers[i].pc == Writing(n)
    ensures SystemInv(AtWriting(sys, i, n))
  {
    hide SystemInv, Stop, SetWorker, Ready, LocksWallets, Inserted, HoldsOnly,
         Statements, CommitWork, WellFormed, Taken, RowAllowed, Blocked, Replaying;
    WorkerAt(sys, i);
    var w := sys.workers[i];
    var rows := Statements(w.op, w.posting);
    InsertedAtMost(sys.store, w, n);
    if n >= |rows| {
      CommitKeeps(sys, i);
    } else if !Blocked(sys, i, rows[n]) {
      if (exists u :: u in rows[n] && (Taken(sys.store, u) || u in w.held)) || !RowAllowed(sys.store, w.op, n) {
        StopKeeps(sys, i, Refused(ConstraintViolation));
        RereadKeeps(sys, i);
      } else {
        var w' := w.(pc := Writing(n + 1), held := w.held + rows[n]);
        InsertedGrows(sys.store, w, w', n);
        ReadyGrows(sys.store, w, w');
        if w.posting {
          LocksSame(sys.store, w, w', []);
        } else {
          ReplayingSame(sys.store, w, w');
        }
        InsertHoldsOnly(sys.store, w, w', n);
        AcquireKeeps(sys, i, rows[n], w');
      }
    }
  }

  lemma InsertedAtMost(s: Store, w: Worker, n: nat)
    requires Inserted(s, w, n)
    ensures n <= |Statements(w.op, w.posting)|
  {
    hide Statements, RowAllowed;
  }

  /** One more insert statement. */
  lemma InsertedGrows(s: Store, w: Worker, w': Worker, n: nat)
    requires Inserted(s, w, n) && n < |Statements(w.op, w.posting)| && RowAllowed(s, w.op, n)
    requires w'.op == w.op && w'.posting == w.posting && w'.held == w.held + Statements(w.op, w.posting)[n]
    requires forall u :: u in Statements(w.op, w.posting)[n] ==> u !in w.held
    ensures Inserted(s, w', n + 1)
  {
    hide Statements, RowAllowed;
  }

  lemma InsertHoldsOnly(s: Store, w: Worker, w': Worker, n: nat)
    requires HoldsOnly(s, w) && n < |Statements(w.op, w.posting)| && w.pc == Writing(n)
    requires w' == w.(pc := Writing(n + 1), held := w.held + Statements(w.op, w.posting)[n])
    ensures HoldsOnly(s, w')
  {
    hide OwnLocked, Statements;
    var rows := Statements(w.op, w.posting);
    forall u | u in rows[n] ensures InsertedBefore(rows, n + 1, u) && !u.WalletRow? && !u.HoldRow? {
      StatementsOccupyIndexes(w.op, w.posting, n, u);
    }
    HoldsOnlyGrows(s, w, w', rows[n]);
  }

  lemma ReplayingSame(s: Store, w: Worker, w': Worker)
    requires Replaying(s, w) && w'.op == w.op
    ensures Replaying(s, w')
  {
  }

  lemma RereadKeeps(sys: System, i: nat)
    requires SystemInv(sys) && i < |sys.workers| && sys.workers[i].pc.Writing?
    ensures sys.workers[i].op.Post? ==> SystemInv(SetWorker(sys, i, sys.workers[i].(pc := Reread, held := {})))
  {
    hide SystemInv, SetWorker, WellFormed;
    WorkerAt(sys, i);
    if sys.workers[i].op.Post? {
      InstallKeeps(sys, i, sys.workers[i].(pc := Reread, held := {}));
    }
  }

  lemma UpdatingKeeps(sys: System, i: nat)
    requires SystemInv(sys) && i < |sys.workers| && sys.workers[i].pc == Updating
    ensures SystemInv(AtUpdating(sys, i))
  {
    hide SystemInv, Stop, SetWorker, CommitWork, WellFormed, Blocked, HoldIndex;
    WorkerAt(sys, i);
    StopKeeps(sys, i, Refused(HoldNotAuthorized));
    var id := HoldOf(sys.workers[i].op);
    if !Blocked(sys, i, {HoldRow(id)}) && FindHold(sys.store, id).Some? &&
       FindHold(sys.store, id).value.status == Authorized {
      CommitKeeps(sys, i);
    }
  }

  // ---------------------------------------------------------------- commits

  lemma CommitKeepsRows(s: Store, op: Op, posting: bool)
    requires SoundRows(s) && WellFormed(op)
    ensures SoundRows(CommitEffect(s, op, posting))
  {
    hide HoldIndex, TouchedWallets, Constructed;
  }

  /** Every other worker sees a commit only as an evolution that respects what it holds. */
  lemma OthersEvolve(sys: System, i: nat, j: nat)
    requires SystemInv(sys) && i < |sys.workers| && j < |sys.workers| && j != i
    requires CommitReady(sys.store, sys.workers[i])
    requires sys.workers[i].pc.Updating? ==> !Blocked(sys, i, {HoldRow(HoldOf(sys.workers[i].op))})
    ensures Evolves(sys.store, CommitWork(sys, i).store, sys.workers[j].held)
  {
    hide SystemInv, Evolves, Unoccupied, KnowsAt, CommitEffect, CommitReady, WellFormed, HoldOf, Blocked, HoldsOnly;
    var w := sys.workers[i];
    OthersDisjoint(sys, i);
    WorkerAt(sys, i);
    WorkerAt(sys, j);
    RowsArePositive(sys);
    HeldRowsAreWallets(sys.store, sys.workers[j]);
    if w.pc.Updating? { NotHeldByOther(sys, i, j, HoldRow(HoldOf(w.op))); }
    CommitEvolves(sys.store, w, sys.workers[j].held);
  }

  lemma RowsArePositive(sys: System)
    requires SystemInv(sys)
    ensures SoundRows(sys.store) && ConstructedHolds(sys.store.holds)
  {
    hide WorkerInv, Exclusive;
  }

  lemma NotHeldByOther(sys: System, i: nat, j: nat, u: Resource)
    requires !Blocked(sys, i, {u}) && j < |sys.workers| && j != i
    ensures u !in sys.workers[j].held
  {
    assert !HeldByOther(sys, i, u);
  }

  /** A commit keeps everybody's knowledge. */
  lemma CommitKeeps(sys: System, i: nat)
    requires SystemInv(sys) && i < |sys.workers| && CommitReady(sys.store, sys.workers[i])
    requires sys.workers[i].pc.Updating? ==> !Blocked(sys, i, {HoldRow(HoldOf(sys.workers[i].op))})
    ensures SystemInv(CommitWork(sys, i))
  {
    hide SoundRows, WorkerInv, Evolves, CommitEffect, CommitReady, HoldOf, Blocked;
    var w := sys.workers[i];
    var after := CommitWork(sys, i);
    OthersDisjoint(sys, i);
    WorkerWellFormed(sys, i);
    CommitKeepsRows(sys.store, w.op, w.posting);
    forall j | 0 <= j < |sys.workers| ensures WorkerInv(after.store, after.now, after.workers[j]) {
      if j == i {
        IdleKnows(after.store, after.now, after.workers[j]);
      } else {
        OthersEvolve(sys, i, j);
        KnowledgeStable(sys.store, after.store, sys.now, sys.now, sys.workers[j]);
      }
    }
  }

  lemma WorkerWellFormed(sys: System, i: nat)
    requires SystemInv(sys) && i < |sys.workers|
    ensures WellFormed(sys.workers[i].op)
  {
    hide SystemInv, WellFormed, KnowsAt, HoldsOnly, Unoccupied;
    WorkerAt(sys, i);
  }

  lemma IdleKnows(s: Store, now: Time, w: Worker)
    requires w.pc.Finished? && w.held == {} && WellFormed(w.op)
    ensures WorkerInv(s, now, w)
  {
    hide WellFormed;
  }

  lemma TickKeeps(sys: System, elapsed: nat)
    requires SystemInv(sys)
    ensures SystemInv(sys.(now := sys.now + elapsed))
  {
    hide KnowsAt, Unoccupied, HoldsOnly, WellFormed, SoundRows;
  }

  /** Only inserting and updating statements commit. */
  lemma QuietStep(sys: System, i: nat, pick: Id)
    requires i < |sys.workers| && !sys.workers[i].pc.Writing? && !sys.workers[i].pc.Updating?
    ensures AdvanceWorker(sys, i, pick).store == sys.store && AdvanceWorker(sys, i, pick).history == sys.history
  {
    hide HoldIndex, HoldKeyIndex, SortedAccounts, Blocked, Accepts64, Projected, Guarded, CheckKey;
  }

  // ---------------------------------------------------------------- every step

  lemma AdvanceKeeps(sys: System, i: nat, pick: Id)
    requires SystemInv(sys) && i < |sys.workers|
    ensures SystemInv(AdvanceWorker(sys, i, pick))
  {
    hide SystemInv, AtStart, AtLockOwn, AtLockHold, AtLocking, AtRecheck, AtValidating, AtWriting, AtUpdating, Stop;
    match sys.workers[i].pc {
      case Start => StartKeeps(sys, i);
      case LockOwn => LockOwnKeeps(sys, i);
      case LockHold => LockHoldKeeps(sys, i);
      case Locking(rest) => LockingKeeps(sys, i, rest);
      case Recheck => RecheckKeeps(sys, i);
      case Validating(todo) => ValidatingKeeps(sys, i, todo, pick);
      case Writing(n) => WritingKeeps(sys, i, n);
      case Reread =>
        forall v ensures SystemInv(Stop(sys, i, v)) { StopKeeps(sys, i, v); }
      case Updating => UpdatingKeeps(sys, i);
      case Finished(_) =>
    }
  }

  lemma StepKeeps(sys: System, m: Move)
    requires SystemInv(sys)
    ensures SystemInv(Step(sys, m))
  {
    hide SystemInv, AdvanceWorker, Stop;
    match m {
      case Advance(i, pick) => if i < |sys.workers| { AdvanceKeeps(sys, i, pick); }
      case Crash(i) => if i < |sys.workers| { StopKeeps(sys, i, Refused(ConnectionLost)); }
      case Tick(elapsed) => TickKeeps(sys, elapsed);
    }
  }

  lemma FreshKnows(sys: System)
    requires Initial(sys) && SoundRows(sys.store)
    ensures SystemInv(sys)
  {
    hide SoundRows, WellFormed;
  }

  /** In every reachable state, with no condition on amounts or timing: locks and pending index entries have
      one holder each, and every worker's knowledge of its locks, its hold, its inserts and its idempotency
      key is true of the committed database. */
  lemma {:induction false} RunKeeps(sys: System, schedule: seq<Move>)
    requires Initial(sys) && SoundRows(sys.store)
    ensures SystemInv(Run(sys, schedule))
  {
    hide Initial, SystemInv, Step, SoundRows;
    if schedule == [] {
      FreshKnows(sys);
    } else {
      RunKeeps(sys, schedule[..|schedule| - 1]);
      StepKeeps(Run(sys, schedule[..|schedule| - 1]), schedule[|schedule| - 1]);
    }
  }
}
