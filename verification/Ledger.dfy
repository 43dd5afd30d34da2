/** The committed state of the ledger database and the meaning of each operation on it. */
module Ledger {
  import opened Prelude
  import opened Money
  import opened Journal
  import opened Transactions

  datatype HoldStatus = Authorized | Captured | Released | Expired

  datatype Hold = Hold(id: Id, wallet: Id, amount: Money, status: HoldStatus, key: string, hash: string,
                       expiresAt: Time)

  datatype KeyRow = KeyRow(hash: string, transactionId: Id)

  /** Committed rows. wallets maps each wallet to its ledger account; accounts and wallets never change. */
  datatype Store = Store(
    accounts: set<Id>,
    wallets: map<Id, Id>,
    log: seq<Transaction>,
    keys: map<string, KeyRow>,
    holds: seq<Hold>,
    outbox: multiset<Id>)

  /** The operations that write. A hold to authorize carries its own idempotency key and hash. */
  datatype Op =
    | Post(tx: Transaction, key: string, hash: string)
    | Authorize(hold: Hold)
    | Capture(holdId: Id, tx: Transaction, key: string, hash: string)
    | Release(holdId: Id)
    | Expire(holdId: Id)

  /** The clock readings of one operation: the start of its database transaction, which is what the
      database's NOW() returns inside it, and the application's own reading for hold expiry. */
  datatype Clock = Clock(began: Time, checked: Time)

  datatype Refusal =
    | IdempotencyConflict
    | HoldIdempotencyConflict
    | InsufficientBalance
    | ConstraintViolation
    | WalletNotFound
    | HoldNotFound
    | HoldNotAuthorized
    | HoldExpired
    | HoldNotExpired
    | ConnectionLost

  datatype Verdict = Done | Replayed | Refused(refusal: Refusal)

  datatype Outcome = Outcome(store: Store, verdict: Verdict)

  // ---------------------------------------------------------------- balances

  /** Sum booked on one side of an account. */
  function Booked(log: seq<Transaction>, a: Id, d: Direction): int {
    if log == [] then 0
    else Booked(log[..|log| - 1], a, d) + Side(log[|log| - 1].entry.postings, a, d)
  }

  predicate Reserves(wallets: map<Id, Id>, h: Hold, a: Id, t: Time) {
    h.wallet in wallets && wallets[h.wallet] == a && h.status == Authorized && h.expiresAt > t
  }

  /** Sum of the holds that reserve funds of account a at instant t. */
  function ActiveHolds(wallets: map<Id, Id>, holds: seq<Hold>, a: Id, t: Time): int {
    if holds == [] then 0
    else
      var h := holds[|holds| - 1];
      ActiveHolds(wallets, holds[..|holds| - 1], a, t) + if Reserves(wallets, h, a, t) then h.amount.amount else 0
  }

  function LedgerBalance(s: Store, a: Id): int {
    Booked(s.log, a, Credit) - Booked(s.log, a, Debit)
  }

  function Available(s: Store, a: Id, t: Time): int {
    LedgerBalance(s, a) - ActiveHolds(s.wallets, s.holds, a, t)
  }

  // ---------------------------------------------------------------- lookups

  /** Position of the hold with this id, or the number of holds when there is none. */
  function HoldIndex(holds: seq<Hold>, id: Id): (i: nat)
    ensures i <= |holds|
    ensures i < |holds| ==> holds[i].id == id
    ensures forall k :: 0 <= k < i ==> holds[k].id != id
  {
    if holds == [] then 0
    else if holds[0].id == id then 0
    else
      var i := HoldIndex(holds[1..], id);
      assert forall k :: 0 < k < 1 + i ==> holds[k] == holds[1..][k - 1];
      1 + i
  }

  function FindHold(s: Store, id: Id): Option<Hold> {
    var i := HoldIndex(s.holds, id);
    if i < |s.holds| then Some(s.holds[i]) else None
  }

  function HoldKeyIndex(holds: seq<Hold>, wallet: Id, key: string): (i: nat)
    ensures i <= |holds|
    ensures i < |holds| ==> holds[i].wallet == wallet && holds[i].key == key
    ensures forall k :: 0 <= k < i ==> !(holds[k].wallet == wallet && holds[k].key == key)
  {
    if holds == [] then 0
    else if holds[0].wallet == wallet && holds[0].key == key then 0
    else
      var i := HoldKeyIndex(holds[1..], wallet, key);
      assert forall k :: 0 < k < 1 + i ==> holds[k] == holds[1..][k - 1];
      1 + i
  }

  function FindHoldByKey(s: Store, wallet: Id, key: string): Option<Hold> {
    var i := HoldKeyIndex(s.holds, wallet, key);
    if i < |s.holds| then Some(s.holds[i]) else None
  }

  datatype KeyVerdict = Absent | Replay | Conflict

  /** What the idempotency table says about posting tx under this key and hash. */
  function CheckKey(s: Store, tx: Transaction, key: string, hash: string): KeyVerdict {
    if key !in s.keys then Absent
    else if s.keys[key].hash != hash || s.keys[key].transactionId != tx.id then Conflict
    else Replay
  }

  // ---------------------------------------------------------------- writes

  predicate Logged(log: seq<Transaction>, id: Id) {
    exists i :: 0 <= i < |log| && log[i].id == id
  }

  predicate HasTransaction(s: Store, id: Id) {
    Logged(s.log, id)
  }

  predicate HasReversalOf(s: Store, id: Id) {
    exists i :: 0 <= i < |s.log| && s.log[i].reverses == Some(id)
  }

  predicate HasEntry(s: Store, id: Id) {
    exists i :: 0 <= i < |s.log| && s.log[i].entry.id == id
  }

  predicate HasPosting(s: Store, id: Id) {
    exists i :: 0 <= i < |s.log| &&
                exists k :: 0 <= k < |s.log[i].entry.postings| && s.log[i].entry.postings[k].id == id
  }

  predicate DistinctIds(ps: seq<Posting>) {
    forall i, k :: 0 <= i < k < |ps| ==> ps[i].id != ps[k].id
  }

  /** No unique index or foreign key refuses the rows of tx. */
  predicate Insertable(s: Store, tx: Transaction, key: string) {
    && !HasTransaction(s, tx.id)
    && (tx.reverses.Some? ==> HasTransaction(s, tx.reverses.value) && !HasReversalOf(s, tx.reverses.value))
    && !HasEntry(s, tx.entry.id)
    && DistinctIds(tx.entry.postings)
    && (forall i :: 0 <= i < |tx.entry.postings| ==> !HasPosting(s, tx.entry.postings[i].id))
    && Accounts(tx.entry.postings) <= s.accounts
    && key !in s.keys
  }

  /** The wallets a transaction touches, one outbox event each. */
  function TouchedWallets(s: Store, tx: Transaction): set<Id> {
    set w | w in s.wallets && s.wallets[w] in Accounts(tx.entry.postings)
  }

  function Insert(s: Store, tx: Transaction, key: string, hash: string): Store {
    s.(log := s.log + [tx],
       keys := s.keys[key := KeyRow(hash, tx.id)],
       outbox := s.outbox + multiset(TouchedWallets(s, tx)))
  }

  /** The guarded status update: only an authorized row changes. */
  function SetStatus(s: Store, id: Id, status: HoldStatus): Store {
    var i := HoldIndex(s.holds, id);
    if i < |s.holds| && s.holds[i].status == Authorized
    then s.(holds := s.holds[i := s.holds[i].(status := status)])
    else s
  }

  // ---------------------------------------------------------------- balance tests

  /** Wallet accounts whose balance the operation must keep non-negative. */
  function Guarded(s: Store, op: Op): set<Id> {
    match op
    case Post(tx, _, _) => Accounts(tx.entry.postings) * s.wallets.Values
    case Capture(_, tx, _, _) => Accounts(tx.entry.postings) * s.wallets.Values
    case Authorize(h) => if h.wallet in s.wallets then {s.wallets[h.wallet]} else {}
    case Release(_) => {}
    case Expire(_) => {}
  }

  /** Change the operation makes to the available balance of a guarded account. */
  function Effect(op: Op, a: Id): int {
    match op
    case Post(tx, _, _) => Delta(tx.entry.postings, a)
    case Capture(_, tx, _, _) => Delta(tx.entry.postings, a)
    case Authorize(h) => var x: int := h.amount.amount; -x
    case Release(_) => 0
    case Expire(_) => 0
  }

  function Projected(s: Store, op: Op, a: Id, t: Time): int {
    Available(s, a, t) + Effect(op, a)
  }

  /** The mathematical test: no guarded account would go below zero. */
  predicate Fits(s: Store, op: Op, t: Time) {
    forall a :: a in Guarded(s, op) ==> Projected(s, op, a, t) >= 0
  }

  /** The aggregate query casts its three sums to BIGINT and fails when one does not fit. */
  predicate Readable(s: Store, a: Id, t: Time) {
    && Booked(s.log, a, Credit) <= MAX_INT64
    && Booked(s.log, a, Debit) <= MAX_INT64
    && ActiveHolds(s.wallets, s.holds, a, t) <= MAX_INT64
  }

  /** The test the code runs on one account, in raw 64-bit registers. */
  predicate Accepts64(s: Store, op: Op, a: Id, t: Time) {
    && Readable(s, a, t)
    && var credits, debits := Booked(s.log, a, Credit), Booked(s.log, a, Debit);
       var held := ActiveHolds(s.wallets, s.holds, a, t);
       match op
       case Authorize(h) => Wrap(Wrap(credits - debits) - held) >= h.amount.amount
       case _ => Wrap(Wrap(Wrap(credits - debits) + Wrap(-held)) + Wrap(Effect(op, a))) >= 0
  }

  predicate Fits64(s: Store, op: Op, t: Time) {
    forall a :: a in Guarded(s, op) ==> Accepts64(s, op, a, t)
  }

  // ---------------------------------------------------------------- operations

  function PostOutcome(s: Store, tx: Transaction, key: string, hash: string, fits: bool): Outcome {
    match CheckKey(s, tx, key, hash)
    case Conflict => Outcome(s, Refused(IdempotencyConflict))
    case Replay => Outcome(s, Replayed)
    case Absent =>
      if !fits then Outcome(s, Refused(InsufficientBalance))
      else if !Insertable(s, tx, key) then Outcome(s, Refused(ConstraintViolation))
      else Outcome(Insert(s, tx, key, hash), Done)
  }

  /** The database's trim strips spaces only. */
  predicate Blank(text: string) {
    forall i :: 0 <= i < |text| ==> text[i] == ' '
  }

  /** A hold that the table's checks let in. */
  predicate Recordable(h: Hold) {
    !Blank(h.key) && !Blank(h.hash)
  }

  function AuthorizeOutcome(s: Store, h: Hold, fits: bool): Outcome {
    if h.wallet !in s.wallets then Outcome(s, Refused(WalletNotFound))
    else match FindHoldByKey(s, h.wallet, h.key)
      case Some(existing) =>
        Outcome(s, if existing.hash != h.hash then Refused(HoldIdempotencyConflict) else Replayed)
      case None =>
        if !fits then Outcome(s, Refused(InsufficientBalance))
        else if FindHold(s, h.id).Some? || !Recordable(h) then Outcome(s, Refused(ConstraintViolation))
        else Outcome(s.(holds := s.holds + [h]), Done)
  }

  function CaptureOutcome(s: Store, id: Id, tx: Transaction, key: string, hash: string, now: Time, fits: bool): Outcome
  {
    match FindHold(s, id)
    case None => Outcome(s, Refused(HoldNotFound))
    case Some(h) =>
      if h.wallet !in s.wallets then Outcome(s, Refused(WalletNotFound))
      else if h.status == Captured then
        match CheckKey(s, tx, key, hash)
        case Conflict => Outcome(s, Refused(IdempotencyConflict))
        case Absent => Outcome(s, Refused(HoldNotAuthorized))
        case Replay => Outcome(s, Replayed)
      else if h.status != Authorized then Outcome(s, Refused(HoldNotAuthorized))
      else if !(now < h.expiresAt) then Outcome(s, Refused(HoldExpired))
      else
        var posted := PostOutcome(s, tx, key, hash, fits);
        if posted.verdict.Refused? then Outcome(s, posted.verdict)
        else Outcome(SetStatus(posted.store, id, Captured), Done)
  }

  function ReleaseOutcome(s: Store, id: Id, now: Time): Outcome {
    match FindHold(s, id)
    case None => Outcome(s, Refused(HoldNotFound))
    case Some(h) =>
      if h.status != Authorized then Outcome(s, Refused(HoldNotAuthorized))
      else if !(now < h.expiresAt) then Outcome(s, Refused(HoldExpired))
      else Outcome(SetStatus(s, id, Released), Done)
  }

  function ExpireOutcome(s: Store, id: Id, now: Time): Outcome {
    match FindHold(s, id)
    case None => Outcome(s, Refused(HoldNotFound))
    case Some(h) =>
      if h.status != Authorized then Outcome(s, Refused(HoldNotAuthorized))
      else if now < h.expiresAt then Outcome(s, Refused(HoldNotExpired))
      else Outcome(SetStatus(s, id, Expired), Done)
  }

  function OutcomeWith(s: Store, op: Op, c: Clock, fits: bool): Outcome {
    match op
    case Post(tx, key, hash) => PostOutcome(s, tx, key, hash, fits)
    case Authorize(h) => AuthorizeOutcome(s, h, fits)
    case Capture(id, tx, key, hash) => CaptureOutcome(s, id, tx, key, hash, c.checked, fits)
    case Release(id) => ReleaseOutcome(s, id, c.checked)
    case Expire(id) => ExpireOutcome(s, id, c.checked)
  }

  /** One operation executed alone with exact arithmetic. */
  function Apply(s: Store, op: Op, c: Clock): Outcome {
    OutcomeWith(s, op, c, Fits(s, op, c.began))
  }

  /** One operation executed alone with the code's 64-bit registers. */
  function Apply64(s: Store, op: Op, c: Clock): Outcome {
    OutcomeWith(s, op, c, Fits64(s, op, c.began))
  }

  /** What the domain constructors guarantee about the arguments of an operation. */
  predicate WellFormed(op: Op) {
    match op
    case Post(tx, _, _) => Constructed(tx)
    case Capture(_, tx, _, _) => Constructed(tx)
    case Authorize(h) => h.amount.Valid() && h.amount.amount > 0 && h.status == Authorized && h.id != 0
    case Release(_) => true
    case Expire(_) => true
  }
}
