/** The statements of a worker, run with nobody in its way, are the specified operation: every verdict, every
    refusal and the committed state. */
module Solo {
  import opened Prelude
  import opened Money
  import opened Journal
  import opened Ledger
  import opened Balances
  import opened Workers
  import opened Interference
  import opened Safety

  /** Nobody else holds anything. */
  predicate Alone(sys: System, i: nat) {
    i < |sys.workers| && forall j :: 0 <= j < |sys.workers| && j != i ==> sys.workers[j].held == {}
  }

  /** From start, only worker i has moved, nothing is committed yet, and i now stands as w. */
  ghost predicate Stands(start: System, sys: System, i: nat, w: Worker) {
    && i < |start.workers|
    && Reaches(start, sys)
    && sys.store == start.store && sys.now == start.now && sys.history == start.history
    && sys.workers == start.workers[i := w]
  }

  /** Worker i has finished as the outcome says; the other workers have not moved. */
  ghost predicate EndsAs(start: System, sys: System, i: nat, o: Outcome) {
    && i < |start.workers|
    && Reaches(start, sys)
    && sys.store == o.store && |sys.workers| == |start.workers|
    && sys.workers[i].pc == Finished(o.verdict)
    && forall j :: 0 <= j < |start.workers| && j != i ==> sys.workers[j] == start.workers[j]
  }

  lemma NothingBlocks(start: System, sys: System, i: nat, w: Worker, us: set<Resource>)
    requires Alone(start, i) && Stands(start, sys, i, w)
    ensures !Blocked(sys, i, us)
  {
    hide Reaches;
  }

  /** One statement that does not commit. */
  lemma Advances(start: System, sys: System, i: nat, w: Worker, pick: Id, w': Worker) returns (sys': System)
    requires Stands(start, sys, i, w)
    requires var next := AdvanceWorker(sys, i, pick);
             && next.workers == sys.workers[i := w'] && next.store == sys.store && next.now == sys.now
             && next.history == sys.history
    ensures Stands(start, sys', i, w')
  {
    hide Reaches, AdvanceWorker;
    sys' := AdvanceWorker(sys, i, pick);
    assert sys' == Step(sys, Advance(i, pick));
    ReachesNext(start, sys, Advance(i, pick));
    assert sys.workers[i := w'] == start.workers[i := w'];
  }

  lemma Stops(start: System, sys: System, i: nat, w: Worker, pick: Id, verdict: Verdict) returns (sys': System)
    requires Stands(start, sys, i, w) && AdvanceWorker(sys, i, pick) == Stop(sys, i, verdict)
    ensures EndsAs(start, sys', i, Outcome(start.store, verdict))
  {
    hide Reaches, AdvanceWorker;
    sys' := Step(sys, Advance(i, pick));
    ReachesNext(start, sys, Advance(i, pick));
  }

  lemma Commits(start: System, sys: System, i: nat, w: Worker, pick: Id) returns (sys': System)
    requires Stands(start, sys, i, w) && AdvanceWorker(sys, i, pick) == CommitWork(sys, i)
    ensures EndsAs(start, sys', i, Outcome(CommitEffect(start.store, w.op, w.posting), Done))
  {
    hide Reaches, AdvanceWorker, CommitEffect;
    sys' := Step(sys, Advance(i, pick));
    ReachesNext(start, sys, Advance(i, pick));
  }

  /** Row locks only: no index entry is held yet. */
  predicate LocksOnly(held: set<Resource>) {
    forall u :: u in held ==> u.WalletRow? || u.HoldRow?
  }

  // ---------------------------------------------------------------- locking

  lemma LocksOne(start: System, sys: System, i: nat, w: Worker, rest: seq<Id>) returns (sys': System, w': Worker)
    requires Alone(start, i) && Stands(start, sys, i, w) && w.pc == Locking(rest) && rest != [] && LocksOnly(w.held)
    ensures Stands(start, sys', i, w') && LocksOnly(w'.held) && w' == w.(pc := Locking(rest[1..]), held := w'.held)
  {
    hide Reaches, Blocked;
    NothingBlocks(start, sys, i, w, {WalletRow(rest[0])});
    w' := if rest[0] in sys.store.wallets.Values
          then w.(pc := Locking(rest[1..]), held := w.held + {WalletRow(rest[0])}) else w.(pc := Locking(rest[1..]));
    sys' := Advances(start, sys, i, w, 0, w');
  }

  lemma {:induction false} LocksAll(start: System, sys: System, i: nat, w: Worker, rest: seq<Id>)
    returns (sys': System, w': Worker)
    requires Alone(start, i) && Stands(start, sys, i, w) && w.pc == Locking(rest) && LocksOnly(w.held)
    ensures Stands(start, sys', i, w') && LocksOnly(w'.held) && w' == w.(pc := Recheck, held := w'.held)
    decreases |rest|
  {
    hide Stands, AdvanceWorker;
    if rest == [] {
      w' := w.(pc := Recheck);
      LockingDone(start, sys, i, w);
      sys' := Advances(start, sys, i, w, 0, w');
    } else {
      var mid, v := LocksOne(start, sys, i, w, rest);
      sys', w' := LocksAll(start, mid, i, v, rest[1..]);
    }
  }

  lemma LockingDone(start: System, sys: System, i: nat, w: Worker)
    requires Stands(start, sys, i, w) && w.pc == Locking([])
    ensures var next := AdvanceWorker(sys, i, 0);
            && next.workers == sys.workers[i := w.(pc := Recheck)] && next.store == sys.store && next.now == sys.now
            && next.history == sys.history
  {
    hide Reaches;
  }

  // ---------------------------------------------------------------- validating

  /** Reading the balances in any order, the worker goes on to write exactly when every test accepts. */
  lemma {:induction false} ValidatesAll(start: System, sys: System, i: nat, w: Worker, todo: set<Id>)
    returns (sys': System, w': Worker)
    requires Stands(start, sys, i, w) && w.pc == Validating(todo)
    ensures w' == w.(pc := Writing(0), exact := w'.exact)
    ensures if forall a :: a in todo ==> Accepts64(start.store, w.op, a, w.clock.began)
            then Stands(start, sys', i, w')
            else EndsAs(start, sys', i, Outcome(start.store, Refused(InsufficientBalance)))
    decreases todo
  {
    hide Reaches, Accepts64, Projected;
    w' := w.(pc := Writing(0));
    if todo == {} {
      sys' := Advances(start, sys, i, w, 0, w');
    } else {
      var a :| a in todo;
      if Accepts64(start.store, w.op, a, w.clock.began) {
        var v := w.(pc := Validating(todo - {a}),
                    exact := w.exact && Projected(start.store, w.op, a, w.clock.began) >= MIN_INT64);
        var mid := Advances(start, sys, i, w, a, v);
        sys', w' := ValidatesAll(start, mid, i, v, todo - {a});
        assert (forall b :: b in todo ==> Accepts64(start.store, w.op, b, w.clock.began)) <==>
               (forall b :: b in todo - {a} ==> Accepts64(start.store, w.op, b, w.clock.began));
      } else {
        sys' := Stops(start, sys, i, w, a, Refused(InsufficientBalance));
      }
    }
  }

  // ---------------------------------------------------------------- writing

  /** The first n inserts are done: exactly their index entries are held besides row locks. */
  predicate HoldsRows(held: set<Resource>, rows: seq<set<Resource>>, n: nat) {
    && n <= |rows|
    && (forall u :: u in held ==> u.WalletRow? || u.HoldRow? || InsertedBefore(rows, n, u))
    && (forall k :: 0 <= k < n ==> rows[k] <= held)
  }

  /** The n-th insert is refused: a committed row or an own earlier insert has its index entry, or a reference
      is missing. */
  predicate RefusedAt(s: Store, op: Op, posting: bool, n: nat)
    requires n < |Statements(op, posting)|
  {
    var rows := Statements(op, posting);
    (exists u :: u in rows[n] && (Taken(s, u) || InsertedBefore(rows, n, u))) || !RowAllowed(s, op, n)
  }

  lemma InsertsOne(start: System, sys: System, i: nat, w: Worker, n: nat) returns (sys': System, w': Worker)
    requires Alone(start, i) && Stands(start, sys, i, w) && w.pc == Writing(n)
    requires n < |Statements(w.op, w.posting)| && HoldsRows(w.held, Statements(w.op, w.posting), n)
    requires !RefusedAt(start.store, w.op, w.posting, n)
    ensures Stands(start, sys', i, w') && w' == w.(pc := Writing(n + 1), held := w'.held)
    ensures HoldsRows(w'.held, Statements(w.op, w.posting), n + 1)
  {
    hide Reaches, Blocked, Statements, Taken, RowAllowed;
    var rows := Statements(w.op, w.posting);
    NothingBlocks(start, sys, i, w, rows[n]);
    assert forall u: Resource :: u in rows[n] ==> !u.WalletRow? && !u.HoldRow? by {
      forall u: Resource | u in rows[n] ensures !u.WalletRow? && !u.HoldRow? {
        StatementsOccupyIndexes(w.op, w.posting, n, u);
      }
    }
    w' := w.(pc := Writing(n + 1), held := w.held + rows[n]);
    sys' := Advances(start, sys, i, w, 0, w');
    forall u | u in w'.held ensures u.WalletRow? || u.HoldRow? || InsertedBefore(rows, n + 1, u) {
      if u !in rows[n] && !u.WalletRow? && !u.HoldRow? {
        var k :| 0 <= k < n && k < |rows| && u in rows[k];
        assert InsertedBefore(rows, n + 1, u);
      }
    }
  }

  /** The key insert of a post whose key is free is never refused. */
  lemma KeyInsertAccepted(s: Store, op: Op, n: nat)
    requires op.Post? && op.key !in s.keys && n == |Statements(op, true)| - 1
    ensures !RefusedAt(s, op, true, n)
  {
    hide HasTransaction, HasReversalOf, HasEntry, HasPosting;
    var rows := Statements(op, true);
    RowInserted(op.tx, op.key, n);
    forall u | u in rows[n] ensures !InsertedBefore(rows, n, u) && !Taken(s, u) {
      if InsertedBefore(rows, n, u) {
        var k :| 0 <= k < n && k < |rows| && u in rows[k];
        RowInserted(op.tx, op.key, k);
      }
    }
  }

  lemma WriteRefused(start: System, sys: System, i: nat, w: Worker, n: nat) returns (sys': System)
    requires Alone(start, i) && Stands(start, sys, i, w) && w.pc == Writing(n)
    requires n < |Statements(w.op, w.posting)| && HoldsRows(w.held, Statements(w.op, w.posting), n)
    requires RefusedAt(start.store, w.op, w.posting, n)
    requires w.op.Post? ==> n != |Statements(w.op, w.posting)| - 1
    ensures EndsAs(start, sys', i, Outcome(start.store, Refused(ConstraintViolation)))
  {
    hide Reaches, Blocked, Statements, Taken, RowAllowed;
    var rows := Statements(w.op, w.posting);
    NothingBlocks(start, sys, i, w, rows[n]);
    if RowAllowed(start.store, w.op, n) {
      var u :| u in rows[n] && (Taken(start.store, u) || InsertedBefore(rows, n, u));
      if InsertedBefore(rows, n, u) {
        var k :| 0 <= k < n && k < |rows| && u in rows[k];
        assert u in w.held;
      }
    }
    sys' := Stops(start, sys, i, w, 0, Refused(ConstraintViolation));
  }

  /** The inserts run to the first refusal, or to the commit. */
  lemma {:induction false} InsertsAll(start: System, sys: System, i: nat, w: Worker, n: nat)
    returns (sys': System, refused: Option<nat>)
    requires Alone(start, i) && Stands(start, sys, i, w) && w.pc == Writing(n)
    requires HoldsRows(w.held, Statements(w.op, w.posting), n)
    requires w.op.Post? ==> w.posting && w.op.key !in start.store.keys
    ensures match refused
            case None =>
              && EndsAs(start, sys', i, Outcome(CommitEffect(start.store, w.op, w.posting), Done))
              && forall k :: n <= k < |Statements(w.op, w.posting)| ==> !RefusedAt(start.store, w.op, w.posting, k)
            case Some(k) =>
              && EndsAs(start, sys', i, Outcome(start.store, Refused(ConstraintViolation)))
              && n <= k < |Statements(w.op, w.posting)| && RefusedAt(start.store, w.op, w.posting, k)
    decreases |Statements(w.op, w.posting)| - n
  {
    hide Stands, EndsAs, Statements, RefusedAt, CommitEffect, InsertedBefore;
    if n == |Statements(w.op, w.posting)| {
      LastCommits(start, sys, i, w, n);
      sys' := Commits(start, sys, i, w, 0);
      refused := None;
    } else if RefusedAt(start.store, w.op, w.posting, n) {
      if w.op.Post? && n == |Statements(w.op, w.posting)| - 1 { KeyInsertAccepted(start.store, w.op, n); }
      sys' := WriteRefused(start, sys, i, w, n);
      refused := Some(n);
    } else {
      var mid, v := InsertsOne(start, sys, i, w, n);
      sys', refused := InsertsAll(start, mid, i, v, n + 1);
    }
  }

  lemma LastCommits(start: System, sys: System, i: nat, w: Worker, n: nat)
    requires Stands(start, sys, i, w) && w.pc == Writing(n) && n == |Statements(w.op, w.posting)|
    ensures AdvanceWorker(sys, i, 0) == CommitWork(sys, i)
  {
    hide Reaches, Statements;
  }

  // ---------------------------------------------------------------- what a refusal means

  lemma AcceptedRow(s: Store, op: Op, n: nat, u: Resource)
    requires PostLike(op) && n < |Statements(op, true)| && !RefusedAt(s, op, true, n) && u in Statements(op, true)[n]
    ensures !Taken(s, u) && RowAllowed(s, op, n)
    ensures forall k :: 0 <= k < n ==> u !in Statements(op, true)[k]
  {
    hide Taken, RowAllowed, Statements;
    forall k | 0 <= k < n ensures u !in Statements(op, true)[k] {
      assert u in Statements(op, true)[k] ==> InsertedBefore(Statements(op, true), n, u);
    }
  }

  /** No insert refused: nothing stands in the way of the transaction. */
  lemma AcceptedMeansInsertable(s: Store, op: Op)
    requires PostLike(op) && op.key !in s.keys
    requires forall k :: 0 <= k < |Statements(op, true)| ==> !RefusedAt(s, op, true, k)
    ensures Insertable(s, op.tx, op.key)
  {
    hide HasTransaction, HasReversalOf, HasEntry, HasPosting, RefusedAt;
    var tx, ps := op.tx, op.tx.entry.postings;
    RowInserted(tx, op.key, 0);
    RowInserted(tx, op.key, 1);
    AcceptedRow(s, op, 0, TransactionPk(tx.id));
    if tx.reverses.Some? { AcceptedRow(s, op, 0, ReversalOf(tx.reverses.value)); }
    AcceptedRow(s, op, 1, EntryPk(tx.entry.id));
    forall k | 0 <= k < |ps|
      ensures !HasPosting(s, ps[k].id) && ps[k].account in s.accounts
      ensures forall j :: 0 <= j < k ==> ps[j].id != ps[k].id
    {
      RowInserted(tx, op.key, k + 2);
      AcceptedRow(s, op, k + 2, PostingPk(ps[k].id));
      forall j | 0 <= j < k ensures ps[j].id != ps[k].id {
        RowInserted(tx, op.key, j + 2);
        assert PostingPk(ps[j].id) in Statements(op, true)[j + 2];
      }
    }
  }

  lemma RefusedMeansNotInsertable(s: Store, op: Op, n: nat)
    requires PostLike(op) && op.key !in s.keys && n < |Statements(op, true)| && RefusedAt(s, op, true, n)
    ensures !Insertable(s, op.tx, op.key)
  {
    hide HasTransaction, HasReversalOf, HasEntry, HasPosting;
    var tx, ps := op.tx, op.tx.entry.postings;
    var rows := Statements(op, true);
    RowInserted(tx, op.key, n);
    if !RowAllowed(s, op, n) {
      if n >= 2 { assert ps[n - 2].account in Accounts(ps); }
    } else {
      var u :| u in rows[n] && (Taken(s, u) || InsertedBefore(rows, n, u));
      if InsertedBefore(rows, n, u) {
        var k :| 0 <= k < n && k < |rows| && u in rows[k];
        RowInserted(tx, op.key, k);
        assert ps[k - 2].id == ps[n - 2].id;
      }
    }
  }

  // ---------------------------------------------------------------- whole operations

  /** From the recheck on, a posting operation whose key is free ends as the specification says. */
  lemma PostsFromRecheck(start: System, sys: System, i: nat, w: Worker) returns (sys': System)
    requires Alone(start, i) && Stands(start, sys, i, w) && w.pc == Recheck && PostLike(w.op) && w.posting
    requires LocksOnly(w.held) && w.op.key !in start.store.keys
    ensures var s := start.store;
            EndsAs(start, sys', i,
                   if !Fits64(s, w.op, w.clock.began) then Outcome(s, Refused(InsufficientBalance))
                   else if !Insertable(s, w.op.tx, w.op.key) then Outcome(s, Refused(ConstraintViolation))
                   else Outcome(CommitEffect(s, w.op, true), Done))
  {
    hide Stands, EndsAs, Accepts64, Insertable, CommitEffect, Statements, Guarded, RefusedAt;
    var s := start.store;
    var v := w.(pc := Validating(Guarded(s, w.op)));
    RecheckPasses(start, sys, i, w);
    var mid := Advances(start, sys, i, w, 0, v);
    var x: Worker;
    sys', x := ValidatesAll(start, mid, i, v, Guarded(s, w.op));
    if Fits64(s, w.op, w.clock.began) {
      var refused: Option<nat>;
      NothingInserted(w.held, Statements(w.op, true));
      sys', refused := InsertsAll(start, sys', i, x, 0);
      if refused.Some? {
        RefusedMeansNotInsertable(s, w.op, refused.value);
      } else {
        AcceptedMeansInsertable(s, w.op);
      }
    }
  }

  lemma NothingInserted(held: set<Resource>, rows: seq<set<Resource>>)
    requires LocksOnly(held)
    ensures HoldsRows(held, rows, 0)
  {
  }

  lemma RecheckPasses(start: System, sys: System, i: nat, w: Worker)
    requires Stands(start, sys, i, w) && w.pc == Recheck && PostLike(w.op) && w.op.key !in start.store.keys
    ensures var next := AdvanceWorker(sys, i, 0);
            && next.workers == sys.workers[i := w.(pc := Validating(Guarded(start.store, w.op)))]
            && next.store == sys.store && next.now == sys.now && next.history == sys.history
  {
    hide Reaches, Guarded;
  }

  /** What the worker is when it begins. */
  predicate Starting(sys: System, i: nat, w: Worker) {
    Alone(sys, i) && sys.workers[i] == w && Workers.Fresh(w)
  }

  lemma StartStands(sys: System, i: nat, w: Worker)
    requires Starting(sys, i, w)
    ensures Stands(sys, sys, i, w)
  {
    hide Reaches;
    ReachesItself(sys);
    assert sys.workers == sys.workers[i := w];
  }

  lemma PostAlone(sys: System, i: nat, w: Worker) returns (sys': System)
    requires Starting(sys, i, w) && w.op.Post?
    ensures EndsAs(sys, sys', i, Apply64(sys.store, w.op, Clock(sys.now, sys.now)))
  {
    hide Stands, EndsAs, Insertable, Insert, Fits64, SortedAccounts, WellFormed;
    StartStands(sys, i, w);
    var verdict := CheckKey(sys.store, w.op.tx, w.op.key, w.op.hash);
    PostStarts(sys, i, w);
    if verdict != Absent {
      sys' := Stops(sys, sys, i, w, 0, KeyRefusal(verdict));
    } else {
      var v := w.(pc := Locking(SortedAccounts(w.op.tx.entry.postings)), clock := Clock(sys.now, sys.now));
      var begun := Advances(sys, sys, i, w, 0, v);
      var locked, u := LocksAll(sys, begun, i, v, SortedAccounts(w.op.tx.entry.postings));
      sys' := PostsFromRecheck(sys, locked, i, u);
    }
  }

  lemma PostStarts(sys: System, i: nat, w: Worker)
    requires Starting(sys, i, w) && w.op.Post?
    ensures var verdict := CheckKey(sys.store, w.op.tx, w.op.key, w.op.hash);
            if verdict != Absent then AdvanceWorker(sys, i, 0) == Stop(sys, i, KeyRefusal(verdict))
            else
              var next := AdvanceWorker(sys, i, 0);
              && next.workers == sys.workers[i := w.(pc := Locking(SortedAccounts(w.op.tx.entry.postings)),
                                                     clock := Clock(sys.now, sys.now))]
              && next.store == sys.store && next.now == sys.now && next.history == sys.history
  {
    hide SortedAccounts, WellFormed;
  }

  /** Releases and expirations: one read, one guarded update. */
  lemma StatusAlone(sys: System, i: nat, w: Worker) returns (sys': System)
    requires Starting(sys, i, w) && (w.op.Release? || w.op.Expire?)
    ensures EndsAs(sys, sys', i, Apply64(sys.store, w.op, Clock(sys.now, sys.now)))
  {
    hide Stands, EndsAs, HoldIndex, SetStatus, AdvanceWorker, Fits64;
    StartStands(sys, i, w);
    var outcome := Apply64(sys.store, w.op, Clock(sys.now, sys.now));
    StatusStarts(sys, i, w);
    if outcome.verdict.Refused? {
      sys' := Stops(sys, sys, i, w, 0, outcome.verdict);
    } else {
      var v := w.(pc := Updating, clock := Clock(sys.now, sys.now));
      var begun := Advances(sys, sys, i, w, 0, v);
      UpdateCommits(sys, begun, i, v);
      sys' := Commits(sys, begun, i, v, 0);
    }
  }

  lemma StatusStarts(sys: System, i: nat, w: Worker)
    requires Starting(sys, i, w) && (w.op.Release? || w.op.Expire?)
    ensures var outcome := Apply64(sys.store, w.op, Clock(sys.now, sys.now));
            if outcome.verdict.Refused?
            then AdvanceWorker(sys, i, 0) == Stop(sys, i, outcome.verdict) && outcome.store == sys.store
            else
              var next := AdvanceWorker(sys, i, 0);
              && next.workers == sys.workers[i := w.(pc := Updating, clock := Clock(sys.now, sys.now))]
              && next.store == sys.store && next.now == sys.now && next.history == sys.history
              && outcome == Outcome(CommitEffect(sys.store, w.op, w.posting), Done)
              && FindHold(sys.store, HoldOf(w.op)).Some?
              && FindHold(sys.store, HoldOf(w.op)).value.status == Authorized
  {
    hide HoldIndex, SetStatus, WellFormed, Fits64;
  }

  lemma UpdateCommits(start: System, sys: System, i: nat, w: Worker)
    requires Alone(start, i) && Stands(start, sys, i, w) && w.pc == Updating && (w.op.Release? || w.op.Expire?)
    requires FindHold(start.store, HoldOf(w.op)).Some?
    requires FindHold(start.store, HoldOf(w.op)).value.status == Authorized
    ensures AdvanceWorker(sys, i, 0) == CommitWork(sys, i)
  {
    hide Reaches, HoldIndex, CommitWork, Blocked;
    NothingBlocks(start, sys, i, w, {HoldRow(HoldOf(w.op))});
  }

  /** Locking the own wallet row first. */
  lemma LocksOwn(start: System, sys: System, i: nat, w: Worker) returns (sys': System, w': Worker)
    requires Alone(start, i) && Stands(start, sys, i, w) && w.pc == LockOwn && w.held == {}
    requires (w.op.Authorize? || w.op.Capture?) && OwnAccount(start.store, w.op).Some?
    ensures Stands(start, sys', i, w') && LocksOnly(w'.held)
    ensures w' == w.(pc := if w.op.Capture? then LockHold else Recheck, held := w'.held)
  {
    hide Reaches, Blocked, OwnAccount;
    var a := OwnAccount(start.store, w.op).value;
    NothingBlocks(start, sys, i, w, {WalletRow(a)});
    w' := w.(pc := if w.op.Capture? then LockHold else Recheck, held := w.held + {WalletRow(a)});
    sys' := Advances(start, sys, i, w, 0, w');
  }

  lemma HoldInsert(s: Store, op: Op)
    requires op.Authorize?
    ensures |Statements(op, true)| == 1
    ensures RefusedAt(s, op, true, 0) <==>
            || FindHold(s, op.hold.id).Some? || FindHoldByKey(s, op.hold.wallet, op.hold.key).Some?
            || !Recordable(op.hold)
  {
    hide HoldIndex, HoldKeyIndex, Recordable;
    var rows := Statements(op, true);
    assert HoldPk(op.hold.id) in rows[0] && HoldKey(op.hold.wallet, op.hold.key) in rows[0];
    assert Taken(s, HoldPk(op.hold.id)) <==> FindHold(s, op.hold.id).Some?;
    assert Taken(s, HoldKey(op.hold.wallet, op.hold.key)) <==> FindHoldByKey(s, op.hold.wallet, op.hold.key).Some?;
  }

  lemma AuthorizeStarts(sys: System, i: nat, w: Worker)
    requires Starting(sys, i, w) && w.op.Authorize?
    ensures if w.op.hold.wallet !in sys.store.wallets
            then AdvanceWorker(sys, i, 0) == Stop(sys, i, Refused(WalletNotFound))
            else
              var next := AdvanceWorker(sys, i, 0);
              && next.workers == sys.workers[i := w.(pc := LockOwn, clock := Clock(sys.now, sys.now))]
              && next.store == sys.store && next.now == sys.now && next.history == sys.history
  {
    hide WellFormed;
  }

  lemma AuthorizeRechecks(start: System, sys: System, i: nat, w: Worker)
    requires Stands(start, sys, i, w) && w.pc == Recheck && w.op.Authorize?
    ensures match FindHoldByKey(start.store, w.op.hold.wallet, w.op.hold.key)
            case Some(existing) =>
              AdvanceWorker(sys, i, 0) ==
              Stop(sys, i, if existing.hash != w.op.hold.hash then Refused(HoldIdempotencyConflict) else Replayed)
            case None =>
              var next := AdvanceWorker(sys, i, 0);
              && next.workers == sys.workers[i := w.(pc := Validating(Guarded(start.store, w.op)))]
              && next.store == sys.store && next.now == sys.now && next.history == sys.history
  {
    hide Reaches, FindHoldByKey, Guarded;
  }

  lemma AuthorizeAlone(sys: System, i: nat, w: Worker) returns (sys': System)
    requires Starting(sys, i, w) && w.op.Authorize?
    ensures EndsAs(sys, sys', i, Apply64(sys.store, w.op, Clock(sys.now, sys.now)))
  {
    hide Stands, EndsAs, FindHold, FindHoldByKey, Accepts64, WellFormed, AdvanceWorker, Stop, Statements, RefusedAt,
         Guarded;
    var s, h := sys.store, w.op.hold;
    StartStands(sys, i, w);
    AuthorizeStarts(sys, i, w);
    if h.wallet !in s.wallets {
      sys' := Stops(sys, sys, i, w, 0, Refused(WalletNotFound));
    } else {
      var v := w.(pc := LockOwn, clock := Clock(sys.now, sys.now));
      var begun := Advances(sys, sys, i, w, 0, v);
      var locked, u := LocksOwn(sys, begun, i, v);
      AuthorizeRechecks(sys, locked, i, u);
      match FindHoldByKey(s, h.wallet, h.key) {
        case Some(existing) =>
          sys' := Stops(sys, locked, i, u, 0,
                        if existing.hash != h.hash then Refused(HoldIdempotencyConflict) else Replayed);
        case None =>
          var x := u.(pc := Validating(Guarded(s, w.op)));
          var checking := Advances(sys, locked, i, u, 0, x);
          var y: Worker;
          sys', y := ValidatesAll(sys, checking, i, x, Guarded(s, w.op));
          if Fits64(s, w.op, sys.now) {
            var refused: Option<nat>;
            NothingInserted(x.held, Statements(w.op, true));
            HoldInsert(s, w.op);
            sys', refused := InsertsAll(sys, sys', i, y, 0);
          }
      }
    }
  }

  lemma CaptureStarts(sys: System, i: nat, w: Worker)
    requires Starting(sys, i, w) && w.op.Capture?
    ensures match FindHold(sys.store, w.op.holdId)
            case None => AdvanceWorker(sys, i, 0) == Stop(sys, i, Refused(HoldNotFound))
            case Some(h) =>
              if h.wallet !in sys.store.wallets then AdvanceWorker(sys, i, 0) == Stop(sys, i, Refused(WalletNotFound))
              else
                var next := AdvanceWorker(sys, i, 0);
                && next.workers == sys.workers[i := w.(pc := LockOwn, clock := Clock(sys.now, sys.now))]
                && next.store == sys.store && next.now == sys.now && next.history == sys.history
                && OwnAccount(sys.store, w.op).Some?
  {
    hide WellFormed, FindHold;
  }

  /** What the capture decides from the locked hold row, before it posts. */
  function LockedHoldVerdict(s: Store, op: Op, now: Time): Option<Verdict>
    requires op.Capture? && FindHold(s, op.holdId).Some?
  {
    var h := FindHold(s, op.holdId).value;
    if h.status == Captured then
      var v := CheckKey(s, op.tx, op.key, op.hash);
      Some(if v == Absent then Refused(HoldNotAuthorized) else KeyRefusal(v))
    else if h.status != Authorized then Some(Refused(HoldNotAuthorized))
    else if !(now < h.expiresAt) then Some(Refused(HoldExpired))
    else None
  }

  lemma CaptureLocksHold(start: System, sys: System, i: nat, w: Worker)
    requires Alone(start, i) && Stands(start, sys, i, w) && w.pc == LockHold && w.op.Capture?
    requires FindHold(start.store, w.op.holdId).Some? && w.clock.checked == start.now && LocksOnly(w.held)
    ensures match LockedHoldVerdict(start.store, w.op, start.now)
            case Some(v) => AdvanceWorker(sys, i, 0) == Stop(sys, i, v)
            case None =>
              var w' := w.(pc := Locking(SortedAccounts(w.op.tx.entry.postings)),
                           held := w.held + {HoldRow(w.op.holdId)});
              var next := AdvanceWorker(sys, i, 0);
              && next.workers == sys.workers[i := w'] && LocksOnly(w'.held)
              && next.store == sys.store && next.now == sys.now && next.history == sys.history
  {
    hide Reaches, FindHold, Blocked, SortedAccounts, CheckKey;
    NothingBlocks(start, sys, i, w, {HoldRow(w.op.holdId)});
  }

  lemma CaptureRechecks(start: System, sys: System, i: nat, w: Worker)
    requires Stands(start, sys, i, w) && w.pc == Recheck && w.op.Capture?
    ensures match CheckKey(start.store, w.op.tx, w.op.key, w.op.hash)
            case Absent => true
            case Conflict => AdvanceWorker(sys, i, 0) == Stop(sys, i, Refused(IdempotencyConflict))
            case Replay =>
              var next := AdvanceWorker(sys, i, 0);
              && next.workers == sys.workers[i := w.(pc := Writing(0), posting := false)]
              && next.store == sys.store && next.now == sys.now && next.history == sys.history
  {
    hide Reaches, CheckKey;
  }

  /** The specification of a capture, by the same two decisions. */
  lemma CaptureByDecisions(s: Store, op: Op, c: Clock)
    requires op.Capture? && FindHold(s, op.holdId).Some? && FindHold(s, op.holdId).value.wallet in s.wallets
    ensures Apply64(s, op, c) ==
            match LockedHoldVerdict(s, op, c.checked)
            case Some(v) => Outcome(s, v)
            case None =>
              match CheckKey(s, op.tx, op.key, op.hash)
              case Conflict => Outcome(s, Refused(IdempotencyConflict))
              case Replay => Outcome(CommitEffect(s, op, false), Done)
              case Absent =>
                if !Fits64(s, op, c.began) then Outcome(s, Refused(InsufficientBalance))
                else if !Insertable(s, op.tx, op.key) then Outcome(s, Refused(ConstraintViolation))
                else Outcome(CommitEffect(s, op, true), Done)
  {
    hide FindHold, CheckKey, Fits64, Insertable, Insert, SetStatus;
  }

  lemma CaptureAlone(sys: System, i: nat, w: Worker) returns (sys': System)
    requires Starting(sys, i, w) && w.op.Capture?
    ensures EndsAs(sys, sys', i, Apply64(sys.store, w.op, Clock(sys.now, sys.now)))
  {
    hide Stands, EndsAs, FindHold, CheckKey, Fits64, Insertable, WellFormed, AdvanceWorker, Stop, Statements,
         CommitEffect,
         LockedHoldVerdict, SortedAccounts, Apply64, PostOutcome;
    var s, clock := sys.store, Clock(sys.now, sys.now);
    StartStands(sys, i, w);
    CaptureStarts(sys, i, w);
    if FindHold(s, w.op.holdId).None? || FindHold(s, w.op.holdId).value.wallet !in s.wallets {
      var verdict := Refused(if FindHold(s, w.op.holdId).None? then HoldNotFound else WalletNotFound);
      MissingHoldOrWallet(s, w.op, clock);
      sys' := Stops(sys, sys, i, w, 0, verdict);
      return;
    }
    CaptureByDecisions(s, w.op, clock);
    var v := w.(pc := LockOwn, clock := clock);
    var begun := Advances(sys, sys, i, w, 0, v);
    var own, u := LocksOwn(sys, begun, i, v);
    CaptureLocksHold(sys, own, i, u);
    var decided := LockedHoldVerdict(s, w.op, sys.now);
    if decided.Some? {
      sys' := Stops(sys, own, i, u, 0, decided.value);
      return;
    }
    var x := u.(pc := Locking(SortedAccounts(w.op.tx.entry.postings)), held := u.held + {HoldRow(w.op.holdId)});
    var locking := Advances(sys, own, i, u, 0, x);
    var locked, y := LocksAll(sys, locking, i, x, SortedAccounts(w.op.tx.entry.postings));
    CaptureRechecks(sys, locked, i, y);
    match CheckKey(s, w.op.tx, w.op.key, w.op.hash) {
      case Absent =>
        AbsentKey(s, w.op);
        sys' := PostsFromRecheck(sys, locked, i, y);
      case Conflict => sys' := Stops(sys, locked, i, y, 0, Refused(IdempotencyConflict));
      case Replay =>
        var z := y.(pc := Writing(0), posting := false);
        var replaying := Advances(sys, locked, i, y, 0, z);
        ReplayWritesNothing(w.op);
        LastCommits(sys, replaying, i, z, 0);
        sys' := Commits(sys, replaying, i, z, 0);
    }
  }

  lemma ReplayWritesNothing(op: Op)
    requires op.Capture?
    ensures Statements(op, false) == []
  {
  }

  lemma AbsentKey(s: Store, op: Op)
    requires PostLike(op) && CheckKey(s, op.tx, op.key, op.hash) == Absent
    ensures op.key !in s.keys
  {
  }

  lemma MissingHoldOrWallet(s: Store, op: Op, c: Clock)
    requires op.Capture? && (FindHold(s, op.holdId).Some? ==> FindHold(s, op.holdId).value.wallet !in s.wallets)
    ensures Apply64(s, op, c) ==
            Outcome(s, Refused(if FindHold(s, op.holdId).None? then HoldNotFound else WalletNotFound))
  {
    hide FindHold, Fits64, PostOutcome;
  }

  /** Run by itself, the statement-level program of any operation is the atomic operation: it ends with the
      specified verdict, whichever that is, and with the specified committed state. */
  lemma AloneIsSpecified(sys: System, i: nat) returns (sys': System)
    requires Alone(sys, i) && Workers.Fresh(sys.workers[i])
    ensures EndsAs(sys, sys', i, Apply64(sys.store, sys.workers[i].op, Clock(sys.now, sys.now)))
  {
    hide EndsAs, Apply64, WellFormed;
    var w := sys.workers[i];
    match w.op {
      case Post(_, _, _) => sys' := PostAlone(sys, i, w);
      case Authorize(_) => sys' := AuthorizeAlone(sys, i, w);
      case Capture(_, _, _, _) => sys' := CaptureAlone(sys, i, w);
      case Release(_) => sys' := StatusAlone(sys, i, w);
      case Expire(_) => sys' := StatusAlone(sys, i, w);
    }
  }
}
