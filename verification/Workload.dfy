/** A condition on the workload alone, checkable before anything runs, under which no schedule overdraws a
    wallet. */
module Workload {
  import opened Prelude
  import opened Money
  import opened Journal
  import opened Ledger
  import opened Balances
  import opened Workers
  import opened Interference
  import opened Safety
  import opened Interleaving
  import Refinement
  import Overflow
  import KeyRaces

  function ReservedBy(wallets: map<Id, Id>, h: Hold, a: Id): int {
    if h.status == Authorized && h.wallet in wallets && wallets[h.wallet] == a then h.amount.amount else 0
  }

  /** Sum of an account's authorized holds, whenever they expire. */
  function Reserved(wallets: map<Id, Id>, holds: seq<Hold>, a: Id): int {
    if holds == [] then 0
    else Reserved(wallets, holds[..|holds| - 1], a) + ReservedBy(wallets, holds[|holds| - 1], a)
  }

  /** What a worker may still add to an account's holds. */
  function Asking(wallets: map<Id, Id>, w: Worker, a: Id): int {
    if w.op.Authorize? && !w.pc.Finished? then ReservedBy(wallets, w.op.hold, a) else 0
  }

  function Asked(wallets: map<Id, Id>, workers: seq<Worker>, a: Id): int {
    if workers == [] then 0
    else Asked(wallets, workers[..|workers| - 1], a) + Asking(wallets, workers[|workers| - 1], a)
  }

  /** Holds an account has and holds it may still get. */
  function Budget(sys: System, a: Id): int {
    Reserved(sys.store.wallets, sys.store.holds, a) + Asked(sys.store.wallets, sys.workers, a)
  }

  /** No posting debits a wallet account more than 2^63 less the account's holds, authorized or requested. */
  predicate Modest(sys: System) {
    forall i, a: Id :: 0 <= i < |sys.workers| && a in sys.store.wallets.Values ==> ModestAt(sys, i, a)
  }

  predicate ModestAt(sys: System, i: nat, a: Id)
    requires i < |sys.workers|
  {
    PostLike(sys.workers[i].op) ==>
      Budget(sys, a) + Side(sys.workers[i].op.tx.entry.postings, a, Debit) <= -MIN_INT64
  }

  lemma {:induction false} ReservedUpdate(wallets: map<Id, Id>, holds: seq<Hold>, i: nat, h: Hold, a: Id)
    requires i < |holds|
    ensures Reserved(wallets, holds[i := h], a) ==
            Reserved(wallets, holds, a) - ReservedBy(wallets, holds[i], a) + ReservedBy(wallets, h, a)
  {
    hide ReservedBy;
    var n := |holds| - 1;
    if i == n {
      assert holds[i := h][..n] == holds[..n];
    } else {
      assert holds[i := h][..n] == holds[..n][i := h];
      ReservedUpdate(wallets, holds[..n], i, h, a);
    }
  }

  lemma {:induction false} AskedUpdate(wallets: map<Id, Id>, workers: seq<Worker>, i: nat, w: Worker, a: Id)
    requires i < |workers|
    ensures Asked(wallets, workers[i := w], a) ==
            Asked(wallets, workers, a) - Asking(wallets, workers[i], a) + Asking(wallets, w, a)
  {
    hide Asking;
    var n := |workers| - 1;
    if i == n {
      assert workers[i := w][..n] == workers[..n];
    } else {
      assert workers[i := w][..n] == workers[..n][i := w];
      AskedUpdate(wallets, workers[..n], i, w, a);
    }
  }

  lemma {:induction false} ActiveWithinReserved(wallets: map<Id, Id>, holds: seq<Hold>, a: Id, t: Time)
    requires ConstructedHolds(holds)
    ensures 0 <= ActiveHolds(wallets, holds, a, t) <= Reserved(wallets, holds, a)
  {
    if holds != [] { ActiveWithinReserved(wallets, holds[..|holds| - 1], a, t); }
  }

  lemma {:induction false} AskedNonNegative(wallets: map<Id, Id>, workers: seq<Worker>, a: Id)
    requires forall i :: 0 <= i < |workers| ==> WellFormed(workers[i].op)
    ensures Asked(wallets, workers, a) >= 0
  {
    if workers != [] { AskedNonNegative(wallets, workers[..|workers| - 1], a); }
  }

  /** An end of a hold can only free what it reserves. */
  lemma StatusLowersReserved(s: Store, id: Id, status: HoldStatus, a: Id)
    requires ConstructedHolds(s.holds) && status != Authorized
    ensures Reserved(s.wallets, SetStatus(s, id, status).holds, a) <= Reserved(s.wallets, s.holds, a)
  {
    hide HoldIndex;
    var i := HoldIndex(s.holds, id);
    if i < |s.holds| { ReservedUpdate(s.wallets, s.holds, i, s.holds[i].(status := status), a); }
  }

  /** Committing an authorization moves its amount from what is asked to what is held; nothing else adds. */
  lemma CommitKeepsBudget(sys: System, i: nat, a: Id)
    requires i < |sys.workers| && !sys.workers[i].pc.Finished? && ConstructedHolds(sys.store.holds)
    ensures Budget(CommitWork(sys, i), a) <= Budget(sys, a)
    ensures CommitWork(sys, i).store.wallets == sys.store.wallets
  {
    hide SetStatus, TouchedWallets, ReservedBy;
    var w, s := sys.workers[i], sys.store;
    AskedUpdate(s.wallets, sys.workers, i, w.(pc := Finished(Done), held := {}), a);
    match w.op {
      case Authorize(h) => assert (s.holds + [h])[..|s.holds + [h]| - 1] == s.holds;
      case Capture(id, tx, key, hash) =>
        var posted := if w.posting then Insert(s, tx, key, hash) else s;
        StatusLowersReserved(posted, id, Captured, a);
        StatusKeepsTables(posted, id, Captured);
      case Release(id) =>
        StatusLowersReserved(s, id, Released, a);
        StatusKeepsTables(s, id, Released);
      case Expire(id) =>
        StatusLowersReserved(s, id, Expired, a);
        StatusKeepsTables(s, id, Expired);
      case Post(_, _, _) =>
    }
  }

  lemma QuietBudget(sys: System, sys': System, i: nat, a: Id)
    requires i < |sys.workers| && KeyRaces.OnlyMoves(sys, sys', i) && sys'.store == sys.store
    requires WellFormed(sys.workers[i].op) && (sys.workers[i].pc.Finished? ==> sys'.workers[i].pc.Finished?)
    ensures Budget(sys', a) <= Budget(sys, a)
  {
    assert sys'.workers == sys.workers[i := sys'.workers[i]];
    AskedUpdate(sys.store.wallets, sys.workers, i, sys'.workers[i], a);
  }

  lemma AdvanceBudget(sys: System, i: nat, pick: Id, a: Id)
    requires SystemInv(sys) && ConstructedHolds(sys.store.holds) && i < |sys.workers|
    ensures Budget(AdvanceWorker(sys, i, pick), a) <= Budget(sys, a)
    ensures AdvanceWorker(sys, i, pick).store.wallets == sys.store.wallets
    ensures KeyRaces.OnlyMoves(sys, AdvanceWorker(sys, i, pick), i)
  {
    hide SystemInv, Budget, CommitWork, Blocked, Statements, Taken, RowAllowed, FindHold, AtStart, AtLockOwn,
         AtLockHold, AtLocking, AtRecheck, AtValidating, AtReread, WellFormed, HoldsOnly, Unoccupied;
    WorkerAt(sys, i);
    KeyRaces.OthersStay(sys, i, pick);
    var sys' := AdvanceWorker(sys, i, pick);
    match sys.workers[i].pc {
      case Writing(n) =>
        CommitKeepsBudget(sys, i, a);
        if sys' != CommitWork(sys, i) { QuietBudget(sys, sys', i, a); }
      case Updating =>
        CommitKeepsBudget(sys, i, a);
        if sys' != CommitWork(sys, i) { QuietBudget(sys, sys', i, a); }
      case _ =>
        QuietStep(sys, i, pick);
        QuietBudget(sys, sys', i, a);
    }
  }

  /** No step makes the budget of an account grow. */
  lemma StepBudget(sys: System, m: Move, a: Id)
    requires SystemInv(sys) && ConstructedHolds(sys.store.holds)
    ensures Budget(Step(sys, m), a) <= Budget(sys, a) && Step(sys, m).store.wallets == sys.store.wallets
    ensures |Step(sys, m).workers| == |sys.workers|
    ensures forall i :: 0 <= i < |sys.workers| ==> Step(sys, m).workers[i].op == sys.workers[i].op
  {
    hide SystemInv, AdvanceWorker, Budget, ConstructedHolds;
    match m {
      case Advance(i, pick) => if i < |sys.workers| { AdvanceBudget(sys, i, pick, a); }
      case Crash(i) =>
        if i < |sys.workers| && !sys.workers[i].pc.Finished? {
          WorkerWellFormed(sys, i);
          QuietBudget(sys, Step(sys, m), i, a);
        }
      case Tick(elapsed) => SameBudget(sys, Step(sys, m), a);
    }
  }

  lemma SameBudget(sys: System, sys': System, a: Id)
    requires sys'.store == sys.store && sys'.workers == sys.workers
    ensures Budget(sys', a) == Budget(sys, a)
  {
  }

  lemma StepKeepsModest(sys: System, m: Move)
    requires SystemInv(sys) && Modest(sys)
    ensures Modest(Step(sys, m))
  {
    hide SystemInv, Step, Budget, ConstructedHolds, Side;
    var sys' := Step(sys, m);
    RowsArePositive(sys);
    StepBudget(sys, m, 0);
    forall i, a: Id | 0 <= i < |sys'.workers| && a in sys'.store.wallets.Values ensures ModestAt(sys', i, a) {
      StepBudget(sys, m, a);
      assert ModestAt(sys, i, a);
    }
  }

  /** On a modest workload every accepted test was exact. */
  lemma ModestTestInWindow(sys: System, i: nat, a: Id)
    requires SystemInv(sys) && NonNegative(sys.store, sys.now) && Modest(sys) && i < |sys.workers|
    requires Writes(sys.workers[i].op) && a in Guarded(sys.store, sys.workers[i].op)
    requires Accepts64(sys.store, sys.workers[i].op, a, sys.workers[i].clock.began)
    ensures Projected(sys.store, sys.workers[i].op, a, sys.workers[i].clock.began) >= MIN_INT64
  {
    hide SystemInv, Accepts64, Available, Effect, LedgerBalance, Projected, Total, Side, Guarded, WellFormed, SoundRows;
    var s, w := sys.store, sys.workers[i];
    WorkerWellFormed(sys, i);
    RowsArePositive(sys);
    BookedAtLeastAvailable(s, a, sys.now);
    Refinement.GuardedIsWallet(s, w.op, a);
    NonNegativeAt(s, a, sys.now);
    if PostLike(w.op) {
      ActiveWithinReserved(s.wallets, s.holds, a, w.clock.began);
      AllWellFormed(sys);
      AskedNonNegative(s.wallets, sys.workers, a);
      assert ModestAt(sys, i, a);
      Overflow.SmallAmountsInWindow(s, w.op, a, w.clock.began);
    } else {
      AuthorizeInWindow(s, w.op, a, w.clock.began);
    }
  }

  lemma AuthorizeInWindow(s: Store, op: Op, a: Id, t: Time)
    requires SoundRows(s) && WellFormed(op) && op.Authorize? && LedgerBalance(s, a) >= 0 && Accepts64(s, op, a, t)
    ensures Projected(s, op, a, t) >= 0
  {
    hide LedgerBalance, Projected, SoundRows, WellFormed, Wrap;
    HoldTestMeaning(s, op, a, t);
  }

  lemma AllWellFormed(sys: System)
    requires SystemInv(sys)
    ensures forall i :: 0 <= i < |sys.workers| ==> WellFormed(sys.workers[i].op)
  {
    hide SystemInv, WellFormed;
    forall i | 0 <= i < |sys.workers| ensures WellFormed(sys.workers[i].op) {
      WorkerWellFormed(sys, i);
    }
  }

  /** No worker has passed a test that should have failed. */
  predicate AllExact(sys: System) {
    sys.inWindow && forall i :: 0 <= i < |sys.workers| ==> sys.workers[i].exact
  }

  lemma ValidatingExact(sys: System, i: nat, todo: set<Id>, pick: Id)
    requires SystemInv(sys) && Solvent(sys) && Modest(sys) && AllExact(sys)
    requires i < |sys.workers| && sys.workers[i].pc == Validating(todo)
    ensures AllExact(AtValidating(sys, i, todo, pick))
  {
    hide SystemInv, Solvent, Modest, Accepts64, Projected, Guarded;
    Refinement.SolventNow(sys);
    Refinement.ValidatingWrites(sys, i);
    if pick in todo && Accepts64(sys.store, sys.workers[i].op, pick, sys.workers[i].clock.began) {
      Refinement.ValidatedIsGuarded(sys, i, todo, pick);
      ModestTestInWindow(sys, i, pick);
    }
  }

  lemma OtherStatementsKeepExact(sys: System, m: Move)
    requires AllExact(sys) && (m.Advance? && m.worker < |sys.workers| ==> !sys.workers[m.worker].pc.Validating?)
    ensures AllExact(Step(sys, m))
  {
    hide HoldIndex, HoldKeyIndex, SortedAccounts, Blocked, CheckKey, CommitEffect, Statements, Taken, RowAllowed,
         AtValidating;
  }

  lemma StepKeepsExact(sys: System, m: Move)
    requires SystemInv(sys) && Solvent(sys) && Modest(sys) && AllExact(sys)
    ensures AllExact(Step(sys, m))
  {
    hide SystemInv, Solvent, Modest, AllExact;
    if m.Advance? && m.worker < |sys.workers| && sys.workers[m.worker].pc.Validating? {
      ValidatingExact(sys, m.worker, sys.workers[m.worker].pc.todo, m.pick);
    } else {
      OtherStatementsKeepExact(sys, m);
    }
  }

  lemma {:induction false} RunStaysExact(sys: System, schedule: seq<Move>)
    requires Initial(sys) && SoundRows(sys.store) && NonNegative(sys.store, sys.now) && Modest(sys)
    ensures AllExact(Run(sys, schedule)) && Modest(Run(sys, schedule))
  {
    hide SystemInv, Solvent, Modest, Step, SoundRows, NonNegative;
    if schedule != [] {
      var before, m := schedule[..|schedule| - 1], schedule[|schedule| - 1];
      RunStaysExact(sys, before);
      RunKeeps(sys, before);
      Refinement.RunIsSerial(sys, before);
      StepKeepsExact(Run(sys, before), m);
      StepKeepsModest(Run(sys, before), m);
    }
  }

  /** When no posting debits a wallet account more than 2^63 less that account's authorized and requested holds, no
      schedule of any kind overdraws a wallet, and every run is equivalent to a serial one. */
  lemma {:induction false} ModestWorkloadIsSafe(sys: System, schedule: seq<Move>, a: Id)
    requires Initial(sys) && SoundRows(sys.store) && NonNegative(sys.store, sys.now) && Modest(sys)
    ensures var end := Run(sys, schedule);
            && (a in sys.store.wallets.Values ==> Available(end.store, a, end.now) >= 0)
            && end.store == Replays(sys.store, end.history) && AllDone(sys.store, end.history)
  {
    hide Initial, SoundRows, NonNegative, Modest, Available, Run, Solvent, AllDone, Replays;
    RunStaysExact(sys, schedule);
    Refinement.RunIsSerial(sys, schedule);
    if a in sys.store.wallets.Values { Refinement.NoWalletOverdrawn(sys, schedule, a); }
  }
}
