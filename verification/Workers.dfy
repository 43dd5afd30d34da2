/** Any number of workers, each executing one operation statement by statement against the shared database.
    Reads see the latest committed rows. Writes become visible together, at commit. Row locks and pending
    unique-index entries are held until commit or rollback, and a statement that needs one held by another
    worker waits. */
module Workers {
  import opened Prelude
  import opened Money
  import opened Journal
  import opened Transactions
  import opened Ledger

  /** Everything a database transaction can hold: the row of the wallet of an account, the row of a hold,
      and the entries its inserted rows occupy in the unique indexes. */
  datatype Resource =
    | WalletRow(account: Id)
    | HoldRow(hold: Id)
    | TransactionPk(id: Id)
    | ReversalOf(id: Id)
    | EntryPk(id: Id)
    | PostingPk(id: Id)
    | KeyPk(key: string)
    | HoldPk(id: Id)
    | HoldKey(wallet: Id, key: string)

  /** Where a worker stands. Locking lists the account keys still to lock, Validating the accounts whose
      balance is still to be read, Writing counts the insert statements done. */
  datatype Pc =
    | Start
    | LockOwn
    | LockHold
    | Locking(rest: seq<Id>)
    | Recheck
    | Validating(todo: set<Id>)
    | Writing(n: nat)
    | Reread
    | Updating
    | Finished(verdict: Verdict)

  /** posting is false only for a capture that found its posting already committed. exact records that every
      balance test the worker has passed had an exact projected balance of at least -2^63. */
  datatype Worker = Worker(op: Op, pc: Pc, clock: Clock, held: set<Resource>, posting: bool, exact: bool)

  datatype Commit = Commit(op: Op, clock: Clock)

  /** history lists the committed operations in commit order. inWindow records that every worker that committed
      was exact. */
  datatype System = System(store: Store, now: Time, workers: seq<Worker>, history: seq<Commit>, inWindow: bool)

  /** Advance lets a worker try its next statement, pick choosing which balance it reads next (the code
      ranges over a map, in no fixed order). Crash loses its connection. Tick lets time pass. */
  datatype Move = Advance(worker: nat, pick: Id) | Crash(worker: nat) | Tick(elapsed: nat)

  // ---------------------------------------------------------------- lock order

  predicate StrictlyIncreasing(xs: seq<Id>) {
    forall i, k :: 0 <= i < k < |xs| ==> xs[i] < xs[k]
  }

  lemma ConsIncreasing(x: Id, xs: seq<Id>)
    requires StrictlyIncreasing(xs) && forall y :: y in xs ==> x < y
    ensures StrictlyIncreasing([x] + xs)
  {
    var r := [x] + xs;
    forall i, k | 0 <= i < k < |r| ensures r[i] < r[k] {
      assert r[k] == xs[k - 1] && xs[k - 1] in xs;
      if i > 0 { assert r[i] == xs[i - 1]; }
    }
  }

  lemma FirstIsLeast(xs: seq<Id>, y: Id)
    requires StrictlyIncreasing(xs) && y in xs
    ensures xs[0] <= y && (y in xs[1..] ==> xs[0] < y)
  {
  }

  /** Sorted insertion without duplicates. */
  function InsertSorted(xs: seq<Id>, x: Id): (r: seq<Id>)
    requires StrictlyIncreasing(xs)
    ensures StrictlyIncreasing(r)
    ensures forall y :: y in r <==> y in xs || y == x
  {
    if xs == [] then [x]
    else if x < xs[0] then
      assert forall y :: y in xs ==> x < y by { forall y | y in xs ensures x < y { FirstIsLeast(xs, y); } }
      ConsIncreasing(x, xs);
      [x] + xs
    else if x == xs[0] then xs
    else
      var rest := InsertSorted(xs[1..], x);
      assert forall y :: y in rest ==> xs[0] < y by {
        forall y | y in rest ensures xs[0] < y { if y != x { FirstIsLeast(xs, y); } }
      }
      ConsIncreasing(xs[0], rest);
      [xs[0]] + rest
  }

  /** The distinct accounts of the postings in lock order. */
  function SortedAccounts(ps: seq<Posting>): (r: seq<Id>)
    ensures StrictlyIncreasing(r)
    ensures forall a :: a in r <==> a in Accounts(ps)
  {
    if ps == [] then []
    else
      assert ps == ps[..|ps| - 1] + [ps[|ps| - 1]];
      AccountsAppend(ps[..|ps| - 1], ps[|ps| - 1]);
      InsertSorted(SortedAccounts(ps[..|ps| - 1]), ps[|ps| - 1].account)
  }

  // ---------------------------------------------------------------- insert statements

  /** Unique-index entries each insert statement occupies, in statement order. */
  function Statements(op: Op, posting: bool): seq<set<Resource>> {
    match op
    case Post(tx, key, _) => RowsOf(tx, key)
    case Capture(_, tx, key, _) => if posting then RowsOf(tx, key) else []
    case Authorize(h) => [{HoldPk(h.id), HoldKey(h.wallet, h.key)}]
    case Release(_) => []
    case Expire(_) => []
  }

  function RowsOf(tx: Transaction, key: string): seq<set<Resource>> {
    [{TransactionPk(tx.id)} + if tx.reverses.Some? then {ReversalOf(tx.reverses.value)} else {}, {EntryPk(tx.entry.id)}]
    + PostingRows(tx.entry.postings)
    + [{}, {KeyPk(key)}]
  }

  function PostingRows(ps: seq<Posting>): (r: seq<set<Resource>>)
    ensures |r| == |ps|
    ensures forall i :: 0 <= i < |ps| ==> r[i] == {PostingPk(ps[i].id)}
  {
    seq(|ps|, i requires 0 <= i < |ps| => {PostingPk(ps[i].id)})
  }

  /** A committed row already occupies the index entry. Row locks occupy none. */
  predicate Taken(s: Store, u: Resource) {
    match u
    case WalletRow(_) => false
    case HoldRow(_) => false
    case TransactionPk(id) => HasTransaction(s, id)
    case ReversalOf(id) => HasReversalOf(s, id)
    case EntryPk(id) => HasEntry(s, id)
    case PostingPk(id) => HasPosting(s, id)
    case KeyPk(key) => key in s.keys
    case HoldPk(id) => FindHold(s, id).Some?
    case HoldKey(wallet, key) => FindHoldByKey(s, wallet, key).Some?
  }

  function TransactionOf(op: Op): Option<Transaction> {
    match op
    case Post(tx, _, _) => Some(tx)
    case Capture(_, tx, _, _) => Some(tx)
    case _ => None
  }

  /** What the n-th insert needs besides free index entries: for a posting operation the row it refers to, the
      reversed transaction or the account, and for a hold the table's checks. */
  predicate RowAllowed(s: Store, op: Op, n: nat) {
    match TransactionOf(op)
    case None => op.Authorize? ==> Recordable(op.hold)
    case Some(tx) =>
      && (n == 0 && tx.reverses.Some? ==> HasTransaction(s, tx.reverses.value))
      && (2 <= n < 2 + |tx.entry.postings| ==> tx.entry.postings[n - 2].account in s.accounts)
  }

  // ---------------------------------------------------------------- one worker's statement

  predicate HeldByOther(sys: System, i: nat, u: Resource) {
    exists j :: 0 <= j < |sys.workers| && j != i && u in sys.workers[j].held
  }

  predicate Blocked(sys: System, i: nat, us: set<Resource>) {
    exists u :: u in us && HeldByOther(sys, i, u)
  }

  function SetWorker(sys: System, i: nat, w: Worker): System
    requires i < |sys.workers|
  {
    sys.(workers := sys.workers[i := w])
  }

  /** Ending without commit rolls everything back and frees what was held. */
  function Stop(sys: System, i: nat, verdict: Verdict): System
    requires i < |sys.workers|
  {
    SetWorker(sys, i, sys.workers[i].(pc := Finished(verdict), held := {}))
  }

  function Goto(sys: System, i: nat, pc: Pc): System
    requires i < |sys.workers|
  {
    SetWorker(sys, i, sys.workers[i].(pc := pc))
  }

  function GotoHolding(sys: System, i: nat, us: set<Resource>, pc: Pc): System
    requires i < |sys.workers|
  {
    SetWorker(sys, i, sys.workers[i].(pc := pc, held := sys.workers[i].held + us))
  }

  function KeyRefusal(v: KeyVerdict): Verdict {
    match v
    case Replay => Replayed
    case Conflict => Refused(IdempotencyConflict)
    case Absent => Refused(ConstraintViolation)
  }

  function Begin(sys: System, i: nat, pc: Pc): System
    requires i < |sys.workers|
  {
    SetWorker(sys, i, sys.workers[i].(pc := pc, clock := Clock(sys.now, sys.now)))
  }

  /** The first read, before or at the beginning of the database transaction. */
  function AtStart(sys: System, i: nat): System
    requires i < |sys.workers|
  {
    var s := sys.store;
    match sys.workers[i].op
    case Post(tx, key, hash) =>
      var v := CheckKey(s, tx, key, hash);
      if v == Absent then Begin(sys, i, Locking(SortedAccounts(tx.entry.postings))) else Stop(sys, i, KeyRefusal(v))
    case Authorize(h) =>
      if h.wallet in s.wallets then Begin(sys, i, LockOwn) else Stop(sys, i, Refused(WalletNotFound))
    case Capture(id, _, _, _) =>
      (match FindHold(s, id)
       case None => Stop(sys, i, Refused(HoldNotFound))
       case Some(h) =>
         if h.wallet in s.wallets then Begin(sys, i, LockOwn) else Stop(sys, i, Refused(WalletNotFound)))
    case Release(id) =>
      (match FindHold(s, id)
       case None => Stop(sys, i, Refused(HoldNotFound))
       case Some(h) =>
         if h.status != Authorized then Stop(sys, i, Refused(HoldNotAuthorized))
         else if !(sys.now < h.expiresAt) then Stop(sys, i, Refused(HoldExpired))
         else Begin(sys, i, Updating))
    case Expire(id) =>
      (match FindHold(s, id)
       case None => Stop(sys, i, Refused(HoldNotFound))
       case Some(h) =>
         if h.status != Authorized then Stop(sys, i, Refused(HoldNotAuthorized))
         else if sys.now < h.expiresAt then Stop(sys, i, Refused(HoldNotExpired))
         else Begin(sys, i, Updating))
  }

  /** The wallet account an authorization or a capture locks first. */
  function OwnAccount(s: Store, op: Op): Option<Id> {
    match op
    case Authorize(h) => if h.wallet in s.wallets then Some(s.wallets[h.wallet]) else None
    case Capture(id, _, _, _) =>
      (match FindHold(s, id)
       case None => None
       case Some(h) => if h.wallet in s.wallets then Some(s.wallets[h.wallet]) else None)
    case _ => None
  }

  function AtLockOwn(sys: System, i: nat): System
    requires i < |sys.workers|
  {
    var op := sys.workers[i].op;
    match OwnAccount(sys.store, op)
    case None => Stop(sys, i, Refused(WalletNotFound))
    case Some(a) =>
      if Blocked(sys, i, {WalletRow(a)}) then sys
      else GotoHolding(sys, i, {WalletRow(a)}, if op.Capture? then LockHold else Recheck)
  }

  /** Lock the hold row, then decide on its status and the application's clock. */
  function AtLockHold(sys: System, i: nat): System
    requires i < |sys.workers|
  {
    var w := sys.workers[i];
    match w.op
    case Capture(id, tx, key, hash) =>
      if Blocked(sys, i, {HoldRow(id)}) then sys
      else
        (match FindHold(sys.store, id)
         case None => Stop(sys, i, Refused(HoldNotFound))
         case Some(h) =>
           if h.status == Captured then
             var v := CheckKey(sys.store, tx, key, hash);
             Stop(sys, i, if v == Absent then Refused(HoldNotAuthorized) else KeyRefusal(v))
           else if h.status != Authorized then Stop(sys, i, Refused(HoldNotAuthorized))
           else if !(sys.now < h.expiresAt) then Stop(sys, i, Refused(HoldExpired))
           else SetWorker(sys, i, w.(pc := Locking(SortedAccounts(tx.entry.postings)),
                                     clock := w.clock.(checked := sys.now),
                                     held := w.held + {HoldRow(id)})))
    case _ => sys
  }

  /** Lock the wallet rows in ascending account order; accounts without a wallet are skipped. */
  function AtLocking(sys: System, i: nat, rest: seq<Id>): System
    requires i < |sys.workers|
  {
    if rest == [] then Goto(sys, i, Recheck)
    else if rest[0] !in sys.store.wallets.Values then Goto(sys, i, Locking(rest[1..]))
    else if Blocked(sys, i, {WalletRow(rest[0])}) then sys
    else GotoHolding(sys, i, {WalletRow(rest[0])}, Locking(rest[1..]))
  }

  function AtRecheck(sys: System, i: nat): System
    requires i < |sys.workers|
  {
    var w := sys.workers[i];
    match w.op
    case Post(tx, key, hash) =>
      var v := CheckKey(sys.store, tx, key, hash);
      if v == Absent then Goto(sys, i, Validating(Guarded(sys.store, w.op))) else Stop(sys, i, KeyRefusal(v))
    case Capture(_, tx, key, hash) =>
      (match CheckKey(sys.store, tx, key, hash)
       case Absent => Goto(sys, i, Validating(Guarded(sys.store, w.op)))
       case Conflict => Stop(sys, i, Refused(IdempotencyConflict))
       case Replay => SetWorker(sys, i, w.(pc := Writing(0), posting := false)))
    case Authorize(h) =>
      (match FindHoldByKey(sys.store, h.wallet, h.key)
       case None => Goto(sys, i, Validating(Guarded(sys.store, w.op)))
       case Some(existing) =>
         Stop(sys, i, if existing.hash != h.hash then Refused(HoldIdempotencyConflict) else Replayed))
    case _ => sys
  }

  /** Read one balance, as of the start of the database transaction, and run the 64-bit test on it. */
  function AtValidating(sys: System, i: nat, todo: set<Id>, pick: Id): System
    requires i < |sys.workers|
  {
    var w := sys.workers[i];
    if todo == {} then Goto(sys, i, Writing(0))
    else if pick !in todo then sys
    else if !Accepts64(sys.store, w.op, pick, w.clock.began) then Stop(sys, i, Refused(InsufficientBalance))
    else
      SetWorker(sys, i, w.(pc := Validating(todo - {pick}),
                           exact := w.exact && Projected(sys.store, w.op, pick, w.clock.began) >= MIN_INT64))
  }

  function CommitEffect(s: Store, op: Op, posting: bool): Store {
    match op
    case Post(tx, key, hash) => Insert(s, tx, key, hash)
    case Authorize(h) => s.(holds := s.holds + [h])
    case Capture(id, tx, key, hash) => SetStatus(if posting then Insert(s, tx, key, hash) else s, id, Captured)
    case Release(id) => SetStatus(s, id, Released)
    case Expire(id) => SetStatus(s, id, Expired)
  }

  function CommitWork(sys: System, i: nat): System
    requires i < |sys.workers|
  {
    var w := sys.workers[i];
    Stop(sys, i, Done).(store := CommitEffect(sys.store, w.op, w.posting),
                        history := sys.history + [Commit(w.op, w.clock)],
                        inWindow := sys.inWindow && w.exact)
  }

  /** The next insert waits on a pending duplicate, fails on a committed or own duplicate or a missing
      reference, and otherwise occupies its index entries. After the last insert the worker commits. A post
      whose key insert fails rolls back and reads the key again. */
  function AtWriting(sys: System, i: nat, n: nat): System
    requires i < |sys.workers|
  {
    var w := sys.workers[i];
    var statements := Statements(w.op, w.posting);
    if n >= |statements| then CommitWork(sys, i)
    else if Blocked(sys, i, statements[n]) then sys
    else if (exists u :: u in statements[n] && (Taken(sys.store, u) || u in w.held))
         || !RowAllowed(sys.store, w.op, n) then
      if w.op.Post? && n == |statements| - 1
      then SetWorker(sys, i, w.(pc := Reread, held := {}))
      else Stop(sys, i, Refused(ConstraintViolation))
    else GotoHolding(sys, i, statements[n], Writing(n + 1))
  }

  function AtReread(sys: System, i: nat): System
    requires i < |sys.workers|
  {
    match sys.workers[i].op
    case Post(tx, key, hash) => Stop(sys, i, KeyRefusal(CheckKey(sys.store, tx, key, hash)))
    case _ => sys
  }

  /** The guarded one-statement status update of a release or an expiration. */
  function AtUpdating(sys: System, i: nat): System
    requires i < |sys.workers|
  {
    match sys.workers[i].op
    case Release(id) => UpdateHold(sys, i, id)
    case Expire(id) => UpdateHold(sys, i, id)
    case _ => sys
  }

  function UpdateHold(sys: System, i: nat, id: Id): System
    requires i < |sys.workers|
  {
    if Blocked(sys, i, {HoldRow(id)}) then sys
    else match FindHold(sys.store, id)
      case None => Stop(sys, i, Refused(HoldNotAuthorized))
      case Some(h) =>
        if h.status != Authorized then Stop(sys, i, Refused(HoldNotAuthorized)) else CommitWork(sys, i)
  }

  function AdvanceWorker(sys: System, i: nat, pick: Id): System
    requires i < |sys.workers|
  {
    match sys.workers[i].pc
    case Start => AtStart(sys, i)
    case LockOwn => AtLockOwn(sys, i)
    case LockHold => AtLockHold(sys, i)
    case Locking(rest) => AtLocking(sys, i, rest)
    case Recheck => AtRecheck(sys, i)
    case Validating(todo) => AtValidating(sys, i, todo, pick)
    case Writing(n) => AtWriting(sys, i, n)
    case Reread => AtReread(sys, i)
    case Updating => AtUpdating(sys, i)
    case Finished(_) => sys
  }

  function Step(sys: System, m: Move): System {
    match m
    case Advance(i, pick) => if i < |sys.workers| then AdvanceWorker(sys, i, pick) else sys
    case Crash(i) =>
      if i < |sys.workers| && !sys.workers[i].pc.Finished? then Stop(sys, i, Refused(ConnectionLost)) else sys
    case Tick(elapsed) => sys.(now := sys.now + elapsed)
  }

  /** The state after a schedule: any interleaving is some schedule. */
  function Run(sys: System, schedule: seq<Move>): System {
    if schedule == [] then sys
    else Step(Run(sys, schedule[..|schedule| - 1]), schedule[|schedule| - 1])
  }

  /** Executing committed operations one at a time. */
  function Replays(s: Store, history: seq<Commit>): Store {
    if history == [] then s
    else
      var last := history[|history| - 1];
      Apply(Replays(s, history[..|history| - 1]), last.op, last.clock).store
  }

  /** Every operation of the history is accepted, and done rather than replayed, where it stands. */
  predicate AllDone(s: Store, history: seq<Commit>) {
    forall k :: 0 <= k < |history| ==> DoneAt(s, history, k)
  }

  predicate DoneAt(s: Store, history: seq<Commit>, k: nat)
    requires k < |history|
  {
    Apply(Replays(s, history[..k]), history[k].op, history[k].clock).verdict == Done
  }

  predicate Fresh(w: Worker) {
    w.pc == Start && w.held == {} && w.posting && w.exact && WellFormed(w.op)
  }

  predicate Initial(sys: System) {
    sys.history == [] && sys.inWindow && forall i :: 0 <= i < |sys.workers| ==> Fresh(sys.workers[i])
  }

  /** Some schedule leads from sys to sys'. */
  ghost predicate Reaches(sys: System, sys': System) {
    exists schedule :: Run(sys, schedule) == sys'
  }

  lemma ReachesItself(sys: System)
    ensures Reaches(sys, sys)
  {
    assert Run(sys, []) == sys;
  }

  lemma ReachesNext(sys: System, mid: System, m: Move)
    requires Reaches(sys, mid)
    ensures Reaches(sys, Step(mid, m))
  {
    hide Step;
    var schedule :| Run(sys, schedule) == mid;
    assert (schedule + [m])[..|schedule + [m]| - 1] == schedule;
    assert Run(sys, schedule + [m]) == Step(mid, m);
  }
}
