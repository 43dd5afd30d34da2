/** Safety over every interleaving: no wallet is overdrawn, and the committed database is the one a serial
    execution of the committed operations produces. */
module Safety {
  import opened Prelude
  import opened Journal
  import opened Transactions
  import opened Ledger
  import opened Balances
  import opened Workers
  import opened Interference

  // ---------------------------------------------------------------- what a worker knows

  /** Every guarded wallet row outside rest is locked. */
  predicate LocksWallets(s: Store, w: Worker, rest: seq<Id>) {
    forall a :: a in Guarded(s, w.op) ==> a in rest || WalletRow(a) in w.held
  }

  /** Every guarded balance outside todo still covers the operation's effect. */
  predicate Covered(s: Store, w: Worker, todo: set<Id>) {
    forall a :: a in Guarded(s, w.op) ==> a in todo || Projected(s, w.op, a, w.clock.began) >= 0
  }

  /** The first n inserts went through: their entries are held, distinct, and their references exist. */
  predicate Inserted(s: Store, w: Worker, n: nat) {
    var rows := Statements(w.op, w.posting);
    && n <= |rows|
    && (forall j :: 0 <= j < n ==> rows[j] <= w.held && RowAllowed(s, w.op, j))
    && (forall j, k :: 0 <= j < k < n ==> rows[j] !! rows[k])
  }

  predicate OwnLocked(s: Store, w: Worker) {
    match OwnAccount(s, w.op)
    case None => false
    case Some(a) => WalletRow(a) in w.held
  }

  /** An authorization or a capture has its own wallet row; a capture past its status check has also locked
      its hold, which is authorized and was unexpired when checked. */
  predicate Ready(s: Store, w: Worker) {
    && (w.op.Authorize? || w.op.Capture? ==> OwnLocked(s, w))
    && (w.op.Capture? ==>
      && HoldRow(w.op.holdId) in w.held
      && match FindHold(s, w.op.holdId)
         case None => false
         case Some(h) => h.status == Authorized && w.clock.checked < h.expiresAt)
  }

  predicate UpdateReady(s: Store, w: Worker) {
    match w.op
    case Release(id) =>
      (match FindHold(s, id) case None => false case Some(h) => w.clock.checked < h.expiresAt)
    case Expire(id) =>
      (match FindHold(s, id) case None => false case Some(h) => h.expiresAt <= w.clock.checked)
    case _ => false
  }

  predicate Replaying(s: Store, w: Worker) {
    w.op.Capture? && CheckKey(s, w.op.tx, w.op.key, w.op.hash) == Replay
  }

  predicate Writes(op: Op) {
    PostLike(op) || op.Authorize?
  }

  /** The accounts still to lock are sorted, are the transaction's own, and lie above every wallet row already
      locked, but for the wallet row that a capture locks first. */
  ghost predicate LockOrder(s: Store, w: Worker, rest: seq<Id>) {
    && PostLike(w.op)
    && StrictlyIncreasing(rest)
    && (forall a :: a in rest ==> a in Accounts(w.op.tx.entry.postings))
    && (forall a: Id, b: Id :: WalletRow(a) in w.held && b in rest ==> a < b || OwnAccount(s, w.op) == Some(a))
  }

  /** No wallet row is locked but the own one. */
  ghost predicate OwnRowOnly(s: Store, w: Worker) {
    forall a: Id :: WalletRow(a) in w.held ==> OwnAccount(s, w.op) == Some(a)
  }

  function InsertsDone(w: Worker): nat {
    match w.pc
    case Writing(n) => n
    case _ => 0
  }

  /** Nothing is held beyond wallet rows, the hold row of a capture, and the entries of inserts done. */
  predicate HoldsOnly(s: Store, w: Worker) {
    forall u :: u in w.held ==>
      match u
      case WalletRow(a) => a in s.wallets.Values
      case HoldRow(id) => w.op.Capture? && w.op.holdId == id && OwnLocked(s, w)
      case _ => InsertedBefore(Statements(w.op, w.posting), InsertsDone(w), u)
  }

  predicate InsertedBefore(rows: seq<set<Resource>>, n: nat, u: Resource) {
    exists k :: 0 <= k < n && k < |rows| && u in rows[k]
  }

  ghost predicate KnowsAt(s: Store, w: Worker) {
    match w.pc
    case Start => w.held == {} && w.posting
    case LockOwn => w.held == {} && w.posting && OwnAccount(s, w.op).Some?
    case LockHold => w.posting && w.op.Capture? && OwnLocked(s, w) && OwnRowOnly(s, w)
    case Locking(rest) => w.posting && LockOrder(s, w, rest) && Ready(s, w) && LocksWallets(s, w, rest)
    case Recheck => w.posting && Writes(w.op) && Ready(s, w) && LocksWallets(s, w, [])
    case Validating(todo) =>
      w.posting && Writes(w.op) && Ready(s, w) && LocksWallets(s, w, []) && todo <= Guarded(s, w.op)
    case Writing(n) =>
      && Writes(w.op) && Ready(s, w) && Inserted(s, w, n)
      && (if w.posting then LocksWallets(s, w, []) else Replaying(s, w))
    case Reread => w.held == {} && w.op.Post?
    case Updating => w.held == {} && UpdateReady(s, w)
    case Finished(_) => w.held == {}
  }

  /** The balances a worker has validated still cover its operation. */
  predicate Funded(s: Store, w: Worker) {
    match w.pc
    case Validating(todo) => Covered(s, w, todo)
    case Writing(n) => w.posting ==> Covered(s, w, {})
    case _ => true
  }

  /** Some guarded account has less booked than the posting takes. */
  predicate Uncovered(s: Store, op: Op) {
    PostLike(op) && exists a :: a in Guarded(s, op) && LedgerBalance(s, a) + Effect(op, a) < 0
  }

  /** A worker that is not exact is past a test that should have failed, or has given up. */
  predicate Doomed(s: Store, w: Worker) {
    match w.pc
    case Validating(_) => Uncovered(s, w.op)
    case Writing(_) => w.posting && Uncovered(s, w.op)
    case Reread => true
    case Finished(_) => true
    case _ => false
  }

  /** What the tests a worker has passed mean for its wallets. */
  predicate Assessed(s: Store, w: Worker) {
    if w.exact then Funded(s, w) else Doomed(s, w)
  }

  ghost predicate WorkerInv(s: Store, now: Time, w: Worker) {
    && WellFormed(w.op)
    && (w.pc != Start && !w.pc.Finished? ==> w.clock.began <= now)
    && Unoccupied(s, w.held)
    && HoldsOnly(s, w)
    && KnowsAt(s, w)
  }

  ghost predicate Exclusive(workers: seq<Worker>) {
    forall i, j :: 0 <= i < |workers| && 0 <= j < |workers| && i != j ==> workers[i].held !! workers[j].held
  }

  ghost predicate SystemInv(sys: System) {
    && SoundRows(sys.store)
    && (forall i :: 0 <= i < |sys.workers| ==> WorkerInv(sys.store, sys.now, sys.workers[i]))
    && Exclusive(sys.workers)
  }

  /** No wallet is overdrawn, every validated worker that is exact is still covered, and the others are not. */
  ghost predicate Solvent(sys: System) {
    && NonNegative(sys.store, sys.now)
    && (forall i :: 0 <= i < |sys.workers| ==> Assessed(sys.store, sys.workers[i]))
  }

  lemma HeldRowsAreWallets(s: Store, w: Worker)
    requires HoldsOnly(s, w)
    ensures RowsOfWallets(s, w.held)
  {
    hide OwnLocked, InsertedBefore, Statements;
  }

  // ---------------------------------------------------------------- what others do not spoil

  lemma GuardedStable(s: Store, s': Store, op: Op)
    requires s'.wallets == s.wallets
    ensures Guarded(s', op) == Guarded(s, op)
  {
  }

  lemma LookupsStable(s: Store, s': Store, w: Worker)
    requires Evolves(s, s', w.held) && WellFormed(w.op)
    ensures OwnAccount(s, w.op).Some? ==> OwnAccount(s', w.op) == OwnAccount(s, w.op)
    ensures Ready(s, w) ==> Ready(s', w)
    ensures UpdateReady(s, w) ==> UpdateReady(s', w)
    ensures Replaying(s, w) ==> Replaying(s', w)
  {
    hide Available, HasTransaction, Taken, FindHold, FindHoldByKey;
    match w.op {
      case Capture(id, _, _, _) => assert FindHold(s, id).Some? ==> FindHold(s', id).Some?;
      case Release(id) => assert FindHold(s, id).Some? ==> FindHold(s', id).Some?;
      case Expire(id) => assert FindHold(s, id).Some? ==> FindHold(s', id).Some?;
      case _ =>
    }
  }

  lemma CoveredStable(s: Store, s': Store, w: Worker, todo: set<Id>)
    requires Evolves(s, s', w.held) && LocksWallets(s, w, []) && Covered(s, w, todo)
    ensures Covered(s', w, todo)
  {
    hide Available, HasTransaction, Taken, FindHold, Effect, Guarded;
    GuardedStable(s, s', w.op);
    forall a | a in Guarded(s, w.op) && a !in todo ensures Projected(s', w.op, a, w.clock.began) >= 0 {
      assert WalletRow(a) in w.held;
    }
  }

  lemma ReferencesStable(s: Store, s': Store, w: Worker, n: nat)
    requires Evolves(s, s', w.held) && RowAllowed(s, w.op, n)
    ensures RowAllowed(s', w.op, n)
  {
    hide Available, HasTransaction, Taken, FindHold;
  }

  lemma InsertedStable(s: Store, s': Store, w: Worker, n: nat)
    requires Evolves(s, s', w.held) && Inserted(s, w, n)
    ensures Inserted(s', w, n)
  {
    hide Evolves, RowAllowed, Statements;
    forall j | 0 <= j < n ensures RowAllowed(s', w.op, j) {
      ReferencesStable(s, s', w, j);
    }
  }

  /** A worker's knowledge survives any commit that leaves alone what the worker holds. */
  lemma KnowledgeStable(s: Store, s': Store, now: Time, now': Time, w: Worker)
    requires WorkerInv(s, now, w) && Evolves(s, s', w.held) && now <= now'
    ensures WorkerInv(s', now', w)
  {
    hide Evolves, HoldsOnly, Unoccupied, KnowsAt, WellFormed;
    UnoccupiedStable(s, s', w.held);
    HoldsOnlyStable(s, s', w);
    KnowledgeAtStable(s, s', w);
  }

  lemma UnoccupiedStable(s: Store, s': Store, us: set<Resource>)
    requires Evolves(s, s', us) && Unoccupied(s, us)
    ensures Unoccupied(s', us)
  {
    hide Available, HasTransaction, Taken, FindHold;
  }

  lemma HoldsOnlyStable(s: Store, s': Store, w: Worker)
    requires Evolves(s, s', w.held) && HoldsOnly(s, w) && WellFormed(w.op)
    ensures HoldsOnly(s', w)
  {
    hide Evolves, OwnAccount, Statements, WellFormed, InsertedBefore;
    LookupsStable(s, s', w);
    EvolvesWallets(s, s', w.held);
  }

  /** So does the cover of the balances it validated. */
  lemma FundedStable(s: Store, s': Store, w: Worker)
    requires KnowsAt(s, w) && Evolves(s, s', w.held) && Funded(s, w)
    ensures Funded(s', w)
  {
    hide Evolves, Ready, Inserted, Covered, LocksWallets;
    match w.pc {
      case Validating(todo) => CoveredStable(s, s', w, todo);
      case Writing(n) => if w.posting { CoveredStable(s, s', w, {}); }
      case _ =>
    }
  }

  lemma UncoveredStable(s: Store, s': Store, w: Worker)
    requires Evolves(s, s', w.held) && LocksWallets(s, w, []) && Uncovered(s, w.op)
    ensures Uncovered(s', w.op)
  {
    hide FindHold, HasTransaction, Available, Taken, Guarded, LedgerBalance, Effect;
    GuardedStable(s, s', w.op);
    var a :| a in Guarded(s, w.op) && LedgerBalance(s, a) + Effect(w.op, a) < 0;
    assert WalletRow(a) in w.held;
    assert LedgerBalance(s', a) + Effect(w.op, a) < 0;
  }

  lemma AssessedStable(s: Store, s': Store, w: Worker)
    requires KnowsAt(s, w) && Evolves(s, s', w.held) && Assessed(s, w)
    ensures Assessed(s', w)
  {
    hide Evolves, Ready, Inserted, LocksWallets, Funded, Uncovered;
    if w.exact {
      FundedStable(s, s', w);
    } else if w.pc.Validating? || w.pc.Writing? {
      UncoveredStable(s, s', w);
    }
  }

  lemma KnowledgeAtStable(s: Store, s': Store, w: Worker)
    requires KnowsAt(s, w) && Evolves(s, s', w.held) && WellFormed(w.op)
    ensures KnowsAt(s', w)
  {
    hide Evolves, Ready, UpdateReady, Replaying, Inserted, LockOrder, OwnAccount, Guarded, WellFormed;
    LookupsStable(s, s', w);
    match w.pc {
      case LockHold => LockOrderStable(s, s', w, []);
      case Locking(rest) =>
        assert s'.wallets == s.wallets by { EvolvesWallets(s, s', w.held); }
        GuardedStable(s, s', w.op);
        ReadyOwnsAccount(s, w, rest);
        LockOrderStable(s, s', w, rest);
      case Recheck => LocksStable(s, s', w);
      case Validating(todo) =>
        assert s'.wallets == s.wallets by { EvolvesWallets(s, s', w.held); }
        GuardedStable(s, s', w.op);
        LocksStable(s, s', w);
      case Writing(n) =>
        InsertedStable(s, s', w, n);
        if w.posting { LocksStable(s, s', w); }
      case _ =>
    }
  }

  lemma ReadyOwnsAccount(s: Store, w: Worker, rest: seq<Id>)
    requires Ready(s, w) && LockOrder(s, w, rest)
    ensures w.op.Post? || OwnAccount(s, w.op).Some?
  {
    hide OwnAccount, FindHold;
  }

  lemma LockOrderStable(s: Store, s': Store, w: Worker, rest: seq<Id>)
    requires w.op.Post? || OwnAccount(s, w.op) == OwnAccount(s', w.op)
    ensures OwnRowOnly(s, w) ==> OwnRowOnly(s', w)
    ensures LockOrder(s, w, rest) ==> LockOrder(s', w, rest)
  {
    hide FindHold;
  }

  lemma EvolvesWallets(s: Store, s': Store, us: set<Resource>)
    requires Evolves(s, s', us)
    ensures s'.wallets == s.wallets && s'.accounts == s.accounts
  {
    hide FindHold, HasTransaction, Available, Taken;
  }

  lemma LocksStable(s: Store, s': Store, w: Worker)
    requires Evolves(s, s', w.held) && LocksWallets(s, w, [])
    ensures LocksWallets(s', w, [])
  {
    hide FindHold, HasTransaction, Available, Taken, Guarded;
    GuardedStable(s, s', w.op);
  }

  // ---------------------------------------------------------------- what a commit guarantees

  /** A worker about to commit: all inserts done, or a status update on an unlocked authorized hold. */
  ghost predicate CommitReady(s: Store, w: Worker) {
    match w.pc
    case Writing(n) => n == |Statements(w.op, w.posting)|
    case Updating =>
      !w.op.Post? && FindHold(s, HoldOf(w.op)).Some? && FindHold(s, HoldOf(w.op)).value.status == Authorized
    case _ => false
  }

  function HoldOf(op: Op): Id {
    match op
    case Capture(id, _, _, _) => id
    case Release(id) => id
    case Expire(id) => id
    case _ => 0
  }

  lemma RowsHeld(s: Store, w: Worker, u: Resource)
    requires Inserted(s, w, |Statements(w.op, w.posting)|) && Occupies(Statements(w.op, w.posting), u)
    ensures u in w.held
  {
    hide Statements, RowAllowed;
  }

  lemma PostingRowsHeld(s: Store, w: Worker, i: nat)
    requires PostLike(w.op) && w.posting && Unoccupied(s, w.held)
    requires Inserted(s, w, |Statements(w.op, true)|) && i < |w.op.tx.entry.postings|
    ensures !HasPosting(s, w.op.tx.entry.postings[i].id) && w.op.tx.entry.postings[i].account in s.accounts
  {
    hide HasPosting, HasTransaction;
    RowInserted(w.op.tx, w.op.key, i + 2);
    assert Statements(w.op, true)[i + 2] <= w.held && RowAllowed(s, w.op, i + 2);
    assert !Taken(s, PostingPk(w.op.tx.entry.postings[i].id));
  }

  lemma PostingRowsDistinct(s: Store, w: Worker, i: nat, k: nat)
    requires PostLike(w.op) && w.posting && Inserted(s, w, |Statements(w.op, true)|)
    requires i < k < |w.op.tx.entry.postings|
    ensures w.op.tx.entry.postings[i].id != w.op.tx.entry.postings[k].id
  {
    hide RowAllowed;
    RowInserted(w.op.tx, w.op.key, i + 2);
    RowInserted(w.op.tx, w.op.key, k + 2);
    assert Statements(w.op, true)[i + 2] !! Statements(w.op, true)[k + 2];
    assert PostingPk(w.op.tx.entry.postings[i].id) in Statements(w.op, true)[i + 2];
  }

  /** Occupied index entries with no duplicate among committed rows: nothing refuses the transaction. */
  lemma InsertedMeansInsertable(s: Store, w: Worker)
    requires PostLike(w.op) && w.posting && Unoccupied(s, w.held)
    requires Inserted(s, w, |Statements(w.op, true)|)
    ensures Insertable(s, w.op.tx, w.op.key)
  {
    hide HasTransaction, HasReversalOf, HasEntry, HasPosting;
    var tx, key := w.op.tx, w.op.key;
    var rows := RowsOf(tx, key);
    var ps := tx.entry.postings;
    RowInserted(tx, key, 0);
    RowInserted(tx, key, 1);
    RowInserted(tx, key, |rows| - 1);
    assert rows[0] <= w.held && rows[1] <= w.held && rows[|rows| - 1] <= w.held;
    assert TransactionPk(tx.id) in w.held && EntryPk(tx.entry.id) in w.held && KeyPk(key) in w.held;
    assert tx.reverses.Some? ==> ReversalOf(tx.reverses.value) in w.held;
    assert RowAllowed(s, w.op, 0);
    hide Statements, Inserted, RowAllowed;
    forall i | 0 <= i < |ps| ensures !HasPosting(s, ps[i].id) && ps[i].account in s.accounts {
      PostingRowsHeld(s, w, i);
    }
    forall i, k | 0 <= i < k < |ps| ensures ps[i].id != ps[k].id {
      PostingRowsDistinct(s, w, i, k);
    }
  }

  lemma CoveredFits(s: Store, w: Worker)
    requires Covered(s, w, {})
    ensures Fits(s, w.op, w.clock.began)
  {
  }

  /** The commit is one serial step: executed alone on the database it finds, its balance test taken as
      passed, the operation is done and leaves the same database. */
  lemma CommitIsPassed(s: Store, w: Worker)
    requires Unoccupied(s, w.held) && KnowsAt(s, w) && CommitReady(s, w)
    ensures OutcomeWith(s, w.op, w.clock, true) == Outcome(CommitEffect(s, w.op, w.posting), Done)
    ensures !w.posting ==> OutcomeWith(s, w.op, w.clock, false) == OutcomeWith(s, w.op, w.clock, true)
  {
    hide HasTransaction, HasReversalOf, HasEntry, HasPosting, Insertable, TouchedWallets, SetStatus, HoldIndex,
         HoldKeyIndex, Projected, Guarded, LocksWallets, OwnLocked, RowsOf;
    match w.op {
      case Post(tx, key, hash) =>
        InsertedMeansInsertable(s, w);
        InsertableKeyAbsent(s, tx, key);
      case Capture(id, tx, key, hash) =>
        assert FindHold(s, id).Some?;
        OwnWalletKnown(s, w);
        if w.posting {
          InsertedMeansInsertable(s, w);
          InsertableKeyAbsent(s, tx, key);
        }
      case Authorize(h) => AuthorizeIsPassed(s, w);
      case Release(id) =>
      case Expire(id) =>
    }
  }

  /** Still covered at commit, the operation also passes the exact test there. */
  lemma CommitIsSerial(s: Store, w: Worker)
    requires Unoccupied(s, w.held) && KnowsAt(s, w) && CommitReady(s, w) && Funded(s, w)
    ensures Apply(s, w.op, w.clock) == Outcome(CommitEffect(s, w.op, w.posting), Done)
  {
    hide OutcomeWith, CommitEffect, Ready, Inserted, LocksWallets, Replaying, Unoccupied, Statements, Covered;
    CommitIsPassed(s, w);
    if w.pc.Writing? && w.posting {
      CoveredFits(s, w);
    } else if w.pc.Updating? {
      NothingToFit(s, w);
    }
  }

  lemma NothingToFit(s: Store, w: Worker)
    requires UpdateReady(s, w)
    ensures Fits(s, w.op, w.clock.began)
  {
    hide FindHold;
  }

  lemma InsertableKeyAbsent(s: Store, tx: Transaction, key: string)
    requires Insertable(s, tx, key)
    ensures key !in s.keys
  {
    hide HasTransaction, HasReversalOf, HasEntry, HasPosting;
  }

  lemma OwnWalletKnown(s: Store, w: Worker)
    requires OwnLocked(s, w) && w.op.Capture? && FindHold(s, w.op.holdId).Some?
    ensures FindHold(s, w.op.holdId).value.wallet in s.wallets
  {
    hide HoldIndex;
  }

  lemma AuthorizeIsPassed(s: Store, w: Worker)
    requires w.op.Authorize? && Unoccupied(s, w.held) && w.pc.Writing? && KnowsAt(s, w) && CommitReady(s, w)
    ensures w.posting && OutcomeWith(s, w.op, w.clock, true) == Outcome(CommitEffect(s, w.op, w.posting), Done)
  {
    hide HoldIndex, HoldKeyIndex, LocksWallets;
    var h := w.op.hold;
    assert Statements(w.op, w.posting)[0] <= w.held;
    assert HoldPk(h.id) in w.held && HoldKey(h.wallet, h.key) in w.held;
    assert !Taken(s, HoldPk(h.id)) && !Taken(s, HoldKey(h.wallet, h.key));
  }

  /** Whoever holds none of the committing worker's resources relies on nothing the commit changes. */
  lemma CommitEvolves(s: Store, w: Worker, us: set<Resource>)
    requires ConstructedHolds(s.holds) && Unoccupied(s, w.held) && KnowsAt(s, w) && CommitReady(s, w)
    requires us !! w.held && RowsOfWallets(s, us)
    requires w.pc.Updating? ==> HoldRow(HoldOf(w.op)) !in us
    ensures Evolves(s, CommitEffect(s, w.op, w.posting), us)
  {
    hide HasTransaction, HasReversalOf, HasEntry, HasPosting, TouchedWallets, SetStatus, HoldIndex, ConstructedHolds,
         HoldKeyIndex, Projected, Evolves, Unoccupied, RowsOfWallets, Insertable, Inserted;
    match w.op {
      case Post(tx, key, hash) => PostEvolves(s, w, us);
      case Capture(id, tx, key, hash) => CaptureEvolves(s, w, us);
      case Authorize(h) => AuthorizeEvolves(s, w, us);
      case Release(id) => StatusEvolves(s, id, Released, us);
      case Expire(id) => StatusEvolves(s, id, Expired, us);
    }
  }

  lemma PostEvolves(s: Store, w: Worker, us: set<Resource>)
    requires PostLike(w.op) && w.posting && Unoccupied(s, w.held) && LocksWallets(s, w, [])
    requires Inserted(s, w, |Statements(w.op, w.posting)|)
    requires us !! w.held && RowsOfWallets(s, us)
    ensures Evolves(s, Insert(s, w.op.tx, w.op.key, w.op.hash), us)
  {
    hide HasTransaction, HasReversalOf, HasEntry, HasPosting, Insert, Evolves, Insertable, Inserted, Unoccupied, RowsOf;
    InsertedMeansInsertable(s, w);
    InsertableKeyAbsent(s, w.op.tx, w.op.key);
    forall u | u in us ensures !Occupies(RowsOf(w.op.tx, w.op.key), u) {
      if Occupies(RowsOf(w.op.tx, w.op.key), u) { RowsHeld(s, w, u); }
    }
    forall a | a in Accounts(w.op.tx.entry.postings) && a in s.wallets.Values ensures WalletRow(a) !in us {
      assert a in Guarded(s, w.op);
    }
    InsertEvolves(s, w.op.tx, w.op.key, w.op.hash, us);
  }

  lemma CaptureEvolves(s: Store, w: Worker, us: set<Resource>)
    requires ConstructedHolds(s.holds) && Unoccupied(s, w.held) && KnowsAt(s, w) && CommitReady(s, w)
    requires w.op.Capture? && us !! w.held && RowsOfWallets(s, us)
    ensures Evolves(s, CommitEffect(s, w.op, w.posting), us)
  {
    hide HasTransaction, HasReversalOf, HasEntry, HasPosting, TouchedWallets, SetStatus, HoldIndex, ConstructedHolds,
         HoldKeyIndex, Projected, Evolves, Unoccupied, RowsOfWallets, Inserted, OwnLocked;
    var id := w.op.holdId;
    assert HoldRow(id) in w.held;
    if w.posting {
      var posted := Insert(s, w.op.tx, w.op.key, w.op.hash);
      PostEvolves(s, w, us);
      assert FindHold(posted, id) == FindHold(s, id);
      StatusEvolves(posted, id, Captured, us);
      EvolvesTransitive(s, posted, SetStatus(posted, id, Captured), us);
    } else {
      StatusEvolves(s, id, Captured, us);
    }
  }

  lemma AuthorizeEvolves(s: Store, w: Worker, us: set<Resource>)
    requires w.op.Authorize? && w.pc.Writing? && KnowsAt(s, w) && CommitReady(s, w) && us !! w.held
    ensures Evolves(s, CommitEffect(s, w.op, w.posting), us)
  {
    hide HoldIndex, HoldKeyIndex, Projected, Evolves, LocksWallets;
    var h := w.op.hold;
    assert Statements(w.op, w.posting)[0] <= w.held;
    assert HoldPk(h.id) in w.held && HoldKey(h.wallet, h.key) in w.held;
    HoldEvolves(s, h, us);
  }
}
