/** The one way the 64-bit balance test can let a wallet go below zero, and conditions that rule it out. */
module Overflow {
  import opened Prelude
  import opened Money
  import opened Journal
  import opened Transactions
  import opened Ledger
  import opened Balances
  import opened Workers

  // ---------------------------------------------------------------- sufficient conditions

  /** A reading on an account whose active holds and whose own debits in the posting together stay within 2^63 is
      in the word's range. */
  lemma SmallAmountsInWindow(s: Store, op: Op, a: Id, began: Time)
    requires SoundRows(s) && WellFormed(op) && PostLike(op) && LedgerBalance(s, a) >= 0
    requires ActiveHolds(s.wallets, s.holds, a, began) + Side(op.tx.entry.postings, a, Debit) <= -MIN_INT64
    ensures Projected(s, op, a, began) >= MIN_INT64
  {
    SideBounded(op.tx.entry.postings, op.tx.entry.currency, a, Credit, |op.tx.entry.postings|);
  }

  // ---------------------------------------------------------------- the failing run

  function Amount(x: int64): Money {
    Money("BRL", x)
  }

  function Transfer(id: Id, from: Id, to: Id, x: int64): Transaction {
    Transaction(id, "t", JournalEntry(id, id, "BRL", [Posting(2 * id, from, Debit, Amount(x)),
                                                      Posting(2 * id + 1, to, Credit, Amount(x))]), None)
  }

  lemma TransferConstructed(id: Id, from: Id, to: Id, x: int64)
    requires id > 0 && from > 0 && to > 0 && x > 0
    ensures Constructed(Transfer(id, from, to, x))
  {
    var ps := Transfer(id, from, to, x).entry.postings;
    assert ps[0].direction == Debit && ps[1].direction == Credit;
    assert ps == [ps[0]] + [ps[1]];
    forall d ensures Total(ps, d) == (if d == Debit then x else 0) + if d == Credit then x else 0 {
      TotalConcat([ps[0]], [ps[1]], d);
      TotalOfOne(ps[0], d);
      TotalOfOne(ps[1], d);
    }
  }

  lemma TotalOfOne(p: Posting, d: Direction)
    ensures Total([p], d) == if p.direction == d then p.amount.amount else 0
  {
    assert [p][..0] == [];
  }

  /** Wallet 7 on account 1 holds 2, all of it reserved until instant 1. */
  function Before(): Store {
    Store({1, 2}, map[7 := 1], [Transfer(1, 2, 1, 2)], map["k1" := KeyRow("h1", 1)],
          [Hold(1, 7, Amount(2), Authorized, "a", "a", 1)], multiset{7})
  }

  function SecondHold(): Hold {
    Hold(2, 7, Amount(2), Authorized, "b", "b", 100)
  }

  function BigPost(): Op {
    Post(Transfer(2, 1, 2, MAX_INT64), "k2", "h2")
  }

  lemma BalancesOfPair(id: Id, from: Id, to: Id, x: int64, a: Id)
    ensures Side(Transfer(id, from, to, x).entry.postings, a, Debit) == if a == from then x else 0
    ensures Side(Transfer(id, from, to, x).entry.postings, a, Credit) == if a == to then x else 0
    ensures Accounts(Transfer(id, from, to, x).entry.postings) == {from, to}
  {
    var ps := Transfer(id, from, to, x).entry.postings;
    assert ps[..|ps| - 1] == [ps[0]];
    assert [ps[0]][..0] == [];
    assert Side([ps[0]], a, Debit) == if a == from then x else 0;
    assert Side([ps[0]], a, Credit) == 0;
    assert ps == [ps[0]] + [ps[1]] && [ps[0]] == [] + [ps[0]];
    AccountsAppend([], ps[0]);
    AccountsAppend([ps[0]], ps[1]);
  }

  /** The store once the second hold has taken over the reservation that lapsed at instant 1. */
  function Between(): Store {
    Before().(holds := Before().holds + [SecondHold()])
  }

  lemma BeforeBalances()
    ensures LedgerBalance(Before(), 1) == 2
    ensures Booked(Before().log, 1, Credit) == 2 && Booked(Before().log, 1, Debit) == 0
    ensures ActiveHolds(Before().wallets, Before().holds, 1, 0) == 2
    ensures ActiveHolds(Before().wallets, Before().holds, 1, 1) == 0
    ensures ActiveHolds(Between().wallets, Between().holds, 1, 0) == 4
    ensures ActiveHolds(Between().wallets, Between().holds, 1, 1) == 2
  {
    BalancesOfPair(1, 2, 1, 2, 1);
    assert Before().log[..|Before().log| - 1] == [];
    assert Between().holds[..1] == Before().holds;
    assert Before().holds[..0] == [];
  }

  /** Read at instant 0 the wallet shows 2 - 4, and 2 - 4 - MaxInt64 wraps to MaxInt64. */
  lemma WrappedTestAccepts()
    ensures Accepts64(Between(), BigPost(), 1, 0)
    ensures Projected(Between(), BigPost(), 1, 0) == -2 - MAX_INT64
  {
    BeforeBalances();
    BalancesOfPair(2, 1, 2, MAX_INT64, 1);
    assert Between().log == Before().log;
    RegistersAddUp(2, 0, 4, -MAX_INT64);
    WrapUnique(-2 - MAX_INT64, MAX_INT64, 1);
  }

  function PostWorker(pc: Pc, held: set<Resource>): Worker {
    Worker(BigPost(), pc, Clock(0, 0), held, true, true)
  }

  function HoldWorker(pc: Pc, held: set<Resource>): Worker {
    var at := if pc == Start then 0 else 1;
    Worker(Authorize(SecondHold()), pc, Clock(at, at), held, true, true)
  }

  function Opening(): System {
    System(Before(), 0, [PostWorker(Start, {}), HoldWorker(Start, {})], [], true)
  }

  lemma LockOrderOfPair()
    ensures SortedAccounts(Transfer(2, 1, 2, MAX_INT64).entry.postings) == [1, 2]
  {
    var ps := Transfer(2, 1, 2, MAX_INT64).entry.postings;
    assert ps[..|ps| - 1] == [ps[0]];
    assert [ps[0]][..0] == [];
    assert SortedAccounts([]) == [];
    assert InsertSorted([], 1) == [1];
    assert SortedAccounts([ps[0]]) == [1];
    assert InsertSorted([], 2) == [2];
    assert [1][1..] == [];
    assert InsertSorted([1], 2) == [1] + [2];
  }

  lemma NobodyElse(sys: System, i: nat, us: set<Resource>)
    requires forall j :: 0 <= j < |sys.workers| && j != i ==> sys.workers[j].held == {}
    ensures !Blocked(sys, i, us)
  {
    forall u ensures !HeldByOther(sys, i, u) {
    }
  }

  function Midway(w: Worker): System {
    System(Before(), 1, [PostWorker(Locking([1, 2]), {}), w], [], true)
  }

  /** The posting begins at instant 0; at instant 1 the first hold lapses. */
  lemma PostBegins()
    ensures Reaches(Opening(), Midway(HoldWorker(Start, {})))
  {
    hide SortedAccounts;
    LockOrderOfPair();
    var s0 := Opening();
    ReachesItself(s0);
    ReachesNext(s0, s0, Advance(0, 0));
    var s1 := System(Before(), 0, [PostWorker(Locking([1, 2]), {}), HoldWorker(Start, {})], [], true);
    assert Step(s0, Advance(0, 0)) == s1;
    ReachesNext(s0, s1, Tick(1));
    assert Step(s1, Tick(1)) == Midway(HoldWorker(Start, {}));
  }

  /** A second hold locks the wallet row and finds its key free. */
  lemma HoldLocks()
    ensures Reaches(Opening(), Midway(HoldWorker(Validating({1}), {WalletRow(1)})))
  {
    hide ActiveHolds, Booked, Accounts, Reaches;
    PostBegins();
    var start := Opening();
    var own := {WalletRow(1)};
    ReachesNext(start, Midway(HoldWorker(Start, {})), Advance(1, 0));
    var s1 := Midway(HoldWorker(LockOwn, {}));
    assert Step(Midway(HoldWorker(Start, {})), Advance(1, 0)) == s1;
    ReachesNext(start, s1, Advance(1, 0));
    NobodyElse(s1, 1, own);
    var none: set<Resource> := {};
    assert none + own == own;
    var s2 := Midway(HoldWorker(Recheck, own));
    assert Step(s1, Advance(1, 0)) == s2;
    ReachesNext(start, s2, Advance(1, 0));
    assert Guarded(Before(), Authorize(SecondHold())) == {1};
    assert Step(s2, Advance(1, 0)) == Midway(HoldWorker(Validating({1}), own));
  }

  lemma HoldRowsFree()
    ensures !Taken(Before(), HoldPk(2)) && !Taken(Before(), HoldKey(7, "b")) && Recordable(SecondHold())
  {
    assert SecondHold().key[0] == 'b' && SecondHold().hash[0] == 'b';
  }

  /** It takes the place of the lapsed one. */
  lemma HoldTakesOver()
    ensures Reaches(Opening(), After(PostWorker(Locking([1, 2]), {})))
  {
    hide ActiveHolds, Booked, Accounts, Reaches, Accepts64, Projected, Taken, Recordable;
    HoldLocks();
    HoldRowsFree();
    var start := Opening();
    var own := {WalletRow(1)};
    var rows := {HoldPk(2), HoldKey(7, "b")};
    var s3 := Midway(HoldWorker(Validating({1}), own));
    ReachesNext(start, s3, Advance(1, 1));
    var s4 := Midway(HoldWorker(Validating({}), own));
    SecondHoldFits();
    var todo: set<Id> := {1};
    assert todo - {1} == {};
    assert Step(s3, Advance(1, 1)) == s4;
    ReachesNext(start, s4, Advance(1, 0));
    var s5 := Midway(HoldWorker(Writing(0), own));
    assert Step(s4, Advance(1, 0)) == s5;
    ReachesNext(start, s5, Advance(1, 0));
    NobodyElse(s5, 1, rows);
    var s6 := Midway(HoldWorker(Writing(1), own + rows));
    assert Step(s5, Advance(1, 0)) == s6;
    ReachesNext(start, s6, Advance(1, 0));
    assert Step(s6, Advance(1, 0)) == After(PostWorker(Locking([1, 2]), {}));
  }

  function HoldCommit(): Commit {
    Commit(Authorize(SecondHold()), Clock(1, 1))
  }

  /** The second hold is committed, the posting is still on its way. */
  function After(w: Worker): System {
    System(Between(), 1, [w, HoldWorker(Finished(Done), {})], [HoldCommit()], true)
  }

  function Rows(): seq<set<Resource>> {
    [{TransactionPk(2)}, {EntryPk(2)}, {PostingPk(4)}, {PostingPk(5)}, {}, {KeyPk("k2")}]
  }

  lemma RowsOfBigPost()
    ensures Statements(BigPost(), true) == Rows()
  {
    assert {TransactionPk(2)} + {} == {TransactionPk(2)};
    assert PostingRows(BigPost().tx.entry.postings) == [{PostingPk(4)}, {PostingPk(5)}];
  }

  lemma SecondHoldFits()
    ensures Accepts64(Before(), Authorize(SecondHold()), 1, 1)
    ensures Projected(Before(), Authorize(SecondHold()), 1, 1) == 0
  {
    hide ActiveHolds, Booked, Wrap;
    BeforeBalances();
    WrapUnique(2, 2, 0);
  }

  lemma OneWalletAccount()
    ensures Before().wallets.Values == {1} && Between().wallets == Before().wallets
  {
    assert Before().wallets[7] == 1;
  }

  /** The posting now locks the wallet row and finds its key free. */
  lemma PostLocks()
    ensures Reaches(Opening(), After(PostWorker(Validating({1}), {WalletRow(1)})))
  {
    hide ActiveHolds, Booked, Reaches;
    HoldTakesOver();
    var start := Opening();
    var own := {WalletRow(1)};
    var s0 := After(PostWorker(Locking([1, 2]), {}));
    ReachesNext(start, s0, Advance(0, 0));
    NobodyElse(s0, 0, own);
    OneWalletAccount();
    var none: set<Resource> := {};
    assert none + own == own;
    assert [1, 2][1..] == [2] && [2][1..] == [];
    var s1 := After(PostWorker(Locking([2]), own));
    assert Step(s0, Advance(0, 0)) == s1;
    ReachesNext(start, s1, Advance(0, 0));
    var s2 := After(PostWorker(Locking([]), own));
    assert Step(s1, Advance(0, 0)) == s2;
    ReachesNext(start, s2, Advance(0, 0));
    var s3 := After(PostWorker(Recheck, own));
    assert Step(s2, Advance(0, 0)) == s3;
    ReachesNext(start, s3, Advance(0, 0));
    BalancesOfPair(2, 1, 2, MAX_INT64, 1);
    assert Guarded(Between(), BigPost()) == {1};
    assert Step(s3, Advance(0, 0)) == After(PostWorker(Validating({1}), own));
  }

  function Wrapped(pc: Pc, held: set<Resource>): System {
    After(PostWorker(pc, held).(exact := false))
  }

  /** Its balance test passes although the exact projected balance is below -2^63. */
  lemma PostPasses()
    ensures Reaches(Opening(), Wrapped(Writing(0), {WalletRow(1)}))
  {
    hide ActiveHolds, Booked, Reaches, Accepts64, Projected;
    PostLocks();
    var start := Opening();
    var own := {WalletRow(1)};
    var s0 := After(PostWorker(Validating({1}), own));
    ReachesNext(start, s0, Advance(0, 1));
    WrappedTestAccepts();
    var todo: set<Id> := {1};
    assert todo - {1} == {};
    var s1 := Wrapped(Validating({}), own);
    assert Step(s0, Advance(0, 1)) == s1;
    ReachesNext(start, s1, Advance(0, 0));
    assert Step(s1, Advance(0, 0)) == Wrapped(Writing(0), own);
  }

  function HeldAfter(n: nat): set<Resource> {
    if n == 0 then {WalletRow(1)}
    else if n <= |Rows()| then HeldAfter(n - 1) + Rows()[n - 1]
    else HeldAfter(n - 1)
  }

  lemma BetweenIsFree(n: nat, u: Resource)
    requires n < |Rows()| && u in Rows()[n]
    ensures !Taken(Between(), u) && u !in HeldAfter(n)
    ensures RowAllowed(Between(), BigPost(), n)
  {
    var s := Between();
    assert |s.log| == 1 && s.log[0] == Transfer(1, 2, 1, 2);
    assert s.log[0].entry.postings[0].id == 2 && s.log[0].entry.postings[1].id == 3;
  }

  lemma {:induction false} PostInserts(n: nat)
    requires n <= |Rows()|
    ensures Reaches(Opening(), Wrapped(Writing(n), HeldAfter(n)))
  {
    hide ActiveHolds, Booked, Reaches, Taken, RowAllowed, Rows, Statements;
    if n == 0 {
      PostPasses();
    } else {
      var k := n - 1;
      PostInserts(k);
      RowsOfBigPost();
      var s0 := Wrapped(Writing(k), HeldAfter(k));
      NobodyElse(s0, 0, Rows()[k]);
      forall u | u in Rows()[k] ensures !Taken(Between(), u) && u !in HeldAfter(k) { BetweenIsFree(k, u); }
      InsertReferences(k);
      ReachesNext(Opening(), s0, Advance(0, 0));
      assert Step(s0, Advance(0, 0)) == Wrapped(Writing(n), HeldAfter(n));
    }
  }

  lemma InsertReferences(n: nat)
    requires n < |Rows()|
    ensures RowAllowed(Between(), BigPost(), n)
  {
  }

  lemma OpeningIsSound()
    ensures Initial(Opening()) && SoundRows(Opening().store) && NonNegative(Opening().store, Opening().now)
  {
    hide ActiveHolds, Booked, Constructed, Transfer;
    TransferConstructed(1, 2, 1, 2);
    TransferConstructed(2, 1, 2, MAX_INT64);
    BeforeBalances();
  }

  lemma DrainedBalance()
    ensures Available(CommitEffect(Between(), BigPost(), true), 1, 1) == -MAX_INT64
  {
    hide ActiveHolds, Booked, TouchedWallets, Transfer, Delta;
    var op := BigPost();
    BeforeBalances();
    InsertMoves(Between(), op.tx, op.key, op.hash, 1, 1);
    BigPostDelta();
  }

  lemma BigPostDelta()
    ensures Delta(BigPost().tx.entry.postings, 1) == -MAX_INT64
  {
    BalancesOfPair(2, 1, 2, MAX_INT64, 1);
  }

  /** Without the window condition safety fails: from a sound, non-negative database, a posting that waits
      while one hold lapses and another replaces it commits a debit of MaxInt64 from a wallet that has 2. */
  lemma Overdraft() returns (sys: System, schedule: seq<Move>)
    ensures Initial(sys) && SoundRows(sys.store) && NonNegative(sys.store, sys.now)
    ensures !Run(sys, schedule).inWindow && 1 in sys.store.wallets.Values
    ensures Available(Run(sys, schedule).store, 1, Run(sys, schedule).now) == -MAX_INT64
  {
    hide Available, SoundRows, NonNegative, Initial, Rows, Run, Statements, BigPost, Between, CommitEffect;
    sys := Opening();
    OpeningIsSound();
    OneWalletAccount();
    PostInserts(|Rows()|);
    RowsOfBigPost();
    DrainedBalance();
    var s0 := Wrapped(Writing(|Rows()|), HeldAfter(|Rows()|));
    ReachesNext(sys, s0, Advance(0, 0));
    schedule :| Run(sys, schedule) == Step(s0, Advance(0, 0));
  }
}
