/** Reversals over every run of the interleaved workers. */
module ReversalRuns {
  import opened Prelude
  import opened Transactions
  import opened Ledger
  import opened Balances
  import opened Workers
  import opened Safety
  import opened Interleaving
  import opened Bookkeeping
  import opened Reversals
  import Histories
  import Progress

  /** Some worker is to post this transaction. */
  predicate Requested(sys: System, tx: Transaction) {
    exists i :: 0 <= i < |sys.workers| && PostLike(sys.workers[i].op) && sys.workers[i].op.tx == tx
  }

  /** Whatever transaction can come to bear this id, it is no reversal: none that is stored, and if none is
      stored, none that is requested. */
  ghost predicate NamesOriginal(sys: System, id: Id) {
    && (forall k :: 0 <= k < |sys.store.log| && sys.store.log[k].id == id ==> sys.store.log[k].reverses == None)
    && (!HasTransaction(sys.store, id) ==> forall tx :: Requested(sys, tx) && tx.id == id ==> tx.reverses == None)
  }

  /** Every requested reversal names an original. A reversal that Reverse built from a stored transaction does,
      since Reverse refuses reversals. */
  ghost predicate RequestsNameOriginals(sys: System) {
    forall tx :: Requested(sys, tx) && tx.reverses.Some? ==> NamesOriginal(sys, tx.reverses.value)
  }

  /** The log of a run is the log it started from, followed by requested transactions. */
  ghost predicate LogFrom(start: System, log: seq<Transaction>) {
    && start.store.log <= log
    && forall k :: |start.store.log| <= k < |log| ==> Requested(start, log[k])
  }

  lemma CommitExtends(s: Store, op: Op, posting: bool)
    ensures var log := CommitEffect(s, op, posting).log;
            log == s.log || (PostLike(op) && log == s.log + [op.tx])
  {
    hide HoldIndex, TouchedWallets;
  }

  lemma StepKeepsLogFrom(start: System, sys: System, m: Move)
    requires SystemInv(sys) && Progress.SameRequests(start, sys) && LogFrom(start, sys.store.log)
    ensures LogFrom(start, Step(sys, m).store.log)
  {
    hide SystemInv, AdvanceWorker, CommitEffect, Progress.HoldFrom;
    if m.Advance? && m.worker < |sys.workers| {
      var op := start.workers[m.worker].op;
      Progress.AdvanceWrites(sys, m.worker, m.pick);
      CommitExtends(sys.store, op, sys.workers[m.worker].posting);
      assert PostLike(op) ==> Requested(start, op.tx);
    }
  }

  lemma {:induction false} RunKeepsLogFrom(sys: System, schedule: seq<Move>)
    requires Initial(sys) && SoundRows(sys.store)
    ensures LogFrom(sys, Run(sys, schedule).store.log)
  {
    hide Initial, SystemInv, SoundRows, Step, Progress.SameRequests, Requested;
    if schedule != [] {
      var before := schedule[..|schedule| - 1];
      RunKeepsLogFrom(sys, before);
      RunKeeps(sys, before);
      Progress.RunKeepsRequests(sys, before);
      StepKeepsLogFrom(sys, Run(sys, before), schedule[|schedule| - 1]);
    }
  }

  /** One reversal in the log of a run: the transaction it names is earlier in the log and is no reversal. */
  lemma NamedIsOriginal(start: System, log: seq<Transaction>, k: nat)
    requires RequestsNameOriginals(start) && OriginalsReversed(start.store.log)
    requires LogFrom(start, log) && SoundReversals(log) && DistinctTransactions(log) && k < |log|
    ensures AimsAtOriginal(log[..k], log[k])
  {
    hide Requested;
    var stored := start.store.log;
    if k < |stored| {
      assert log[..k] == stored[..k] && log[k] == stored[k];
      assert AimsAtOriginal(stored[..k], stored[k]);
    } else if log[k].reverses.Some? {
      var id := log[k].reverses.value;
      var m :| 0 <= m < k && log[m].id == id;
      assert log[..k][m] == log[m];
      assert Requested(start, log[k]) && NamesOriginal(start, id);
      if m < |stored| {
        assert stored[m] == log[m];
      } else {
        assert Requested(start, log[m]);
      }
    }
  }

  /** In every reachable database reversals aim at originals, when that is so at the start and of the requests. */
  lemma {:induction false} RunReversesOriginals(sys: System, schedule: seq<Move>)
    requires Initial(sys) && LedgerInv(sys.store)
    requires OriginalsReversed(sys.store.log) && RequestsNameOriginals(sys)
    ensures OriginalsReversed(Run(sys, schedule).store.log)
  {
    hide Initial, Run, SoundRows, DistinctTransactions, SoundReversals, KnownAccounts, KeysMatchLog, OutboxComplete,
         DistinctHolds, AimsAtOriginal, LogFrom, RequestsNameOriginals;
    var log := Run(sys, schedule).store.log;
    RunKeepsLogFrom(sys, schedule);
    Histories.RunKeepsLedger(sys, schedule);
    forall k | 0 <= k < |log| ensures AimsAtOriginal(log[..k], log[k]) {
      hide OriginalsReversed;
      NamedIsOriginal(sys, log, k);
    }
  }

  /** Over all runs, reversal is a partial injection from reversals to earlier transactions that are none. */
  lemma {:induction false} RunReversesInjectively(sys: System, schedule: seq<Move>, r: nat, q: nat)
    requires Initial(sys) && LedgerInv(sys.store)
    requires OriginalsReversed(sys.store.log) && RequestsNameOriginals(sys)
    requires r < |Run(sys, schedule).store.log| && q < |Run(sys, schedule).store.log|
    requires Run(sys, schedule).store.log[r].reverses.Some? && Run(sys, schedule).store.log[q].reverses.Some?
    ensures var log := Run(sys, schedule).store.log;
            && (log[r].reverses == log[q].reverses <==> r == q)
            && exists o :: 0 <= o < r && log[o].id == log[r].reverses.value && log[o].reverses == None
  {
    hide Initial, Run, LedgerInv, OriginalsReversed, RequestsNameOriginals;
    RunReversesOriginals(sys, schedule);
    Histories.RunKeepsLedger(sys, schedule);
    ReversalIsInjective(Run(sys, schedule).store, r, q);
  }

  /** What Reverse makes of a transaction it found at any point of a run may be requested: it names an original. For
      an original posted during the run, no other request may bear its id. */
  lemma {:induction false} ReversedNamesOriginal(
    sys: System, schedule: seq<Move>, k: nat, t: Transaction, r: Transaction)
    requires Initial(sys) && LedgerInv(sys.store)
    requires k < |Run(sys, schedule).store.log| && Run(sys, schedule).store.log[k].reverses == None
    requires t.id == Run(sys, schedule).store.log[k].id && Undoes(r, t)
    requires HasTransaction(sys.store, t.id) ||
             forall tx :: Requested(sys, tx) && tx.id == t.id ==> tx == Run(sys, schedule).store.log[k]
    ensures r.reverses.Some? && NamesOriginal(sys, r.reverses.value)
  {
    hide Initial, Run, SoundRows, SoundReversals, KnownAccounts, KeysMatchLog, OutboxComplete, DistinctHolds, Requested;
    var stored, log := sys.store.log, Run(sys, schedule).store.log;
    RunKeepsLogFrom(sys, schedule);
    Histories.RunKeepsLedger(sys, schedule);
    forall m | 0 <= m < |stored| && stored[m].id == t.id ensures stored[m].reverses == None {
      assert log[m] == stored[m];
      assert m == k;
    }
  }
}
