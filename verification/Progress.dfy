/** Freedom from deadlock over every run, from conditions on the requests and the database they start from. */
module Progress {
  import opened Prelude
  import opened Ledger
  import opened Balances
  import opened Workers
  import opened Interference
  import opened Safety
  import opened Interleaving
  import opened Deadlock
  import KeyRaces

  /** A hold with this id and wallet is stored, or some worker asks for it. */
  ghost predicate HoldFrom(sys: System, id: Id, wallet: Id) {
    || (FindHold(sys.store, id).Some? && FindHold(sys.store, id).value.wallet == wallet)
    || exists i :: 0 <= i < |sys.workers| && AsksFor(sys.workers[i].op, id, wallet)
  }

  predicate AsksFor(op: Op, id: Id, wallet: Id) {
    op.Authorize? && op.hold.id == id && op.hold.wallet == wallet
  }

  /** Whatever wallet the captured hold can turn out to have, the settlement touches no wallet account below it. */
  ghost predicate SettlementsGoUp(sys: System) {
    forall i, wallet ::
      0 <= i < |sys.workers| && sys.workers[i].op.Capture? && HoldFrom(sys, sys.workers[i].op.holdId, wallet) &&
      wallet in sys.store.wallets ==>
        forall a :: a in Guarded(sys.store, sys.workers[i].op) ==> sys.store.wallets[wallet] <= a
  }

  /** What a run cannot change: the requests, the wallets, and where holds come from. */
  ghost predicate SameRequests(start: System, sys: System) {
    && |sys.workers| == |start.workers|
    && (forall i :: 0 <= i < |start.workers| ==> sys.workers[i].op == start.workers[i].op)
    && sys.store.wallets == start.store.wallets
    && (forall id :: FindHold(sys.store, id).Some? ==> HoldFrom(start, id, FindHold(sys.store, id).value.wallet))
  }

  /** Holds enter the store by their worker's commit only, and no status change moves a hold to another wallet. */
  lemma CommitKeepsOrigins(s: Store, op: Op, posting: bool, id: Id)
    ensures var s' := CommitEffect(s, op, posting);
            && s'.wallets == s.wallets
            && (FindHold(s', id).Some? ==>
                  || (FindHold(s, id).Some? && FindHold(s, id).value.wallet == FindHold(s', id).value.wallet)
                  || AsksFor(op, id, FindHold(s', id).value.wallet))
  {
    hide HoldIndex, TouchedWallets, SetStatus;
    match op {
      case Authorize(h) => FindAfterAppend(s, h, id);
      case Capture(hold, tx, key, hash) =>
        FindAfterStatus(s, hold, Captured, id);
        FindAfterStatus(Insert(s, tx, key, hash), hold, Captured, id);
        StatusKeepsTables(s, hold, Captured);
        StatusKeepsTables(Insert(s, tx, key, hash), hold, Captured);
      case Release(hold) =>
        FindAfterStatus(s, hold, Released, id);
        StatusKeepsTables(s, hold, Released);
      case Expire(hold) =>
        FindAfterStatus(s, hold, Expired, id);
        StatusKeepsTables(s, hold, Expired);
      case Post(_, _, _) =>
    }
  }

  lemma AdvanceWrites(sys: System, i: nat, pick: Id)
    requires i < |sys.workers|
    ensures var next := AdvanceWorker(sys, i, pick).store;
            next == sys.store || next == CommitEffect(sys.store, sys.workers[i].op, sys.workers[i].posting)
  {
    hide FindHold, SortedAccounts, Blocked, Statements, Taken, RowAllowed, CommitEffect, AtStart, AtLockOwn,
         AtLockHold, AtLocking, AtRecheck, AtValidating, AtReread;
    if !sys.workers[i].pc.Writing? && !sys.workers[i].pc.Updating? { QuietStep(sys, i, pick); }
  }

  lemma StepKeepsRequests(start: System, sys: System, m: Move)
    requires SystemInv(sys) && SameRequests(start, sys)
    ensures SameRequests(start, Step(sys, m))
  {
    hide SystemInv, AdvanceWorker, FindHold, CommitEffect, HoldFrom;
    match m {
      case Advance(i, pick) =>
        if i < |sys.workers| {
          RereadsArePosts(sys, i);
          KeyRaces.OthersStay(sys, i, pick);
          AdvanceWrites(sys, i, pick);
          var s' := AdvanceWorker(sys, i, pick).store;
          if s' != sys.store {
            forall id ensures FindHold(s', id).Some? ==> HoldFrom(start, id, FindHold(s', id).value.wallet) {
              CommitKeepsOrigins(sys.store, sys.workers[i].op, sys.workers[i].posting, id);
              if FindHold(s', id).Some? && AsksFor(sys.workers[i].op, id, FindHold(s', id).value.wallet) {
                AskedFrom(start, i, id, FindHold(s', id).value.wallet);
              }
            }
            CommitKeepsOrigins(sys.store, sys.workers[i].op, sys.workers[i].posting, 0);
          }
        }
      case Crash(i) =>
      case Tick(elapsed) =>
    }
  }

  lemma AskedFrom(start: System, i: nat, id: Id, wallet: Id)
    requires i < |start.workers| && AsksFor(start.workers[i].op, id, wallet)
    ensures HoldFrom(start, id, wallet)
  {
  }

  lemma RereadsArePosts(sys: System, i: nat)
    requires SystemInv(sys) && i < |sys.workers|
    ensures sys.workers[i].pc == Reread ==> sys.workers[i].op.Post?
  {
    hide SystemInv, HoldsOnly, Unoccupied, WellFormed;
    WorkerAt(sys, i);
  }

  lemma {:induction false} RunKeepsRequests(sys: System, schedule: seq<Move>)
    requires Initial(sys) && SoundRows(sys.store)
    ensures SameRequests(sys, Run(sys, schedule))
  {
    hide Initial, SystemInv, SoundRows, Step, SameRequests;
    if schedule == [] {
      SameAtStart(sys);
    } else {
      RunKeepsRequests(sys, schedule[..|schedule| - 1]);
      RunKeeps(sys, schedule[..|schedule| - 1]);
      StepKeepsRequests(sys, Run(sys, schedule[..|schedule| - 1]), schedule[|schedule| - 1]);
    }
  }

  lemma SameAtStart(sys: System)
    ensures SameRequests(sys, sys)
  {
    hide FindHold;
  }

  /** The conditions of the deadlock argument hold wherever a run gets, if they hold of the requests. */
  lemma ConditionsCarryOver(start: System, sys: System)
    requires SameRequests(start, sys) && IdsPerRequest(start) && SettlementsGoUp(start)
    ensures IdsPerRequest(sys) && SettlesUpward(sys)
  {
    hide FindHold, SharesRowIds, HoldFrom, Guarded;
    forall i | 0 <= i < |sys.workers| && sys.workers[i].op.Capture?
      ensures match OwnAccount(sys.store, sys.workers[i].op)
              case None => true
              case Some(own) => forall a :: a in Guarded(sys.store, sys.workers[i].op) ==> own <= a
    {
      var op := sys.workers[i].op;
      GuardedStable(start.store, sys.store, op);
      if FindHold(sys.store, op.holdId).Some? {
        var wallet := FindHold(sys.store, op.holdId).value.wallet;
        assert start.workers[i].op == op && HoldFrom(start, op.holdId, wallet);
      }
    }
  }

  /** From any database, with row ids minted per request and no settlement to a wallet account below the hold's
      own, no schedule reaches a state in which workers are unfinished and none can execute its next statement. */
  lemma {:induction false} NoReachableDeadlock(sys: System, schedule: seq<Move>) returns (i: nat)
    requires Initial(sys) && SoundRows(sys.store) && IdsPerRequest(sys) && SettlementsGoUp(sys)
    requires exists k :: 0 <= k < |Run(sys, schedule).workers| && Unfinished(Run(sys, schedule).workers[k])
    ensures CanStep(Run(sys, schedule), i)
  {
    hide SystemInv, IdsPerRequest, SettlesUpward, SettlementsGoUp, CanStep, Run, Initial, SoundRows, SameRequests;
    RunKeeps(sys, schedule);
    RunKeepsRequests(sys, schedule);
    ConditionsCarryOver(sys, Run(sys, schedule));
    i := SomebodyCanStep(Run(sys, schedule));
  }
}
